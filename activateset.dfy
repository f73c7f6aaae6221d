/**
 * The `activateset` handler of src/commands/sets/activateset.js: one nickname
 * attempt per stored identity (the guild owner's is refused up front), each
 * settled outcome turned into one report line, and the report sent once.
 *
 * The stored set, the platform's `setNickname` outcomes and the way members render
 * in text are inputs; the settled outcomes are taken in identity order.
 */
module ActivateSet {
  import opened Js
  import opened Platform

  /** A stored nickname, which may be `null`. */
  datatype Nickname = Nick(text: string) | NullNick

  /** Template interpolation of a stored nickname: `null` renders as "null". */
  function NickText(n: Nickname): string {
    match n
    case Nick(text) => text
    case NullNick => "null"
  }

  datatype Identity = Identity(userId: string, nickname: Nickname)

  /** What `getSet` returns for a set that exists. */
  datatype IdentitySet = IdentitySet(name: string, identities: seq<Identity>)

  /** The reason of a rejected attempt: a string, a `DiscordAPIError`, or any other error. */
  datatype Reason = Text(text: string) | ApiError(code: int, path: string) | OtherError

  /** A settled attempt: fulfilled with the member (here, its user's name) or rejected. */
  datatype Settled = Fulfilled(username: string) | Rejected(reason: Reason)

  /**
   * What building one attempt gives: the member lookup found no member, so calling
   * `setNickname` on it throws at once; or a promise that settles.
   */
  datatype Attempt = NotAMember | Settles(settled: Settled)

  /** The platform's answer to `guild.member(id).setNickname(nickname)` for one identity. */
  type SetNickname = Identity -> Attempt

  /** How a member (or, for an id that is no member, `null`) renders inside a message. */
  type MemberText = string -> string

  const PermissionsCode: int := 50013
  const UnknownReasonLine: string := "Unable to set nickname for unknown reason. Please contact the developer"

  /** The attempt for one identity: the owner's is rejected with `owner:<nickname>` and never reaches the platform. */
  function AttemptFor(identity: Identity, ownerId: string, setNickname: SetNickname): Attempt {
    if identity.userId == ownerId then Settles(Rejected(Text("owner:" + NickText(identity.nickname))))
    else setNickname(identity)
  }

  /**
   * The `identities.map`: the settled outcomes in identity order, or `None` when
   * some attempt throws while the promises are being built.
   */
  function Attempts(identities: seq<Identity>, ownerId: string, setNickname: SetNickname): (r: Option<seq<Settled>>)
    ensures r.None? <==> exists k :: 0 <= k < |identities| && AttemptFor(identities[k], ownerId, setNickname).NotAMember?
    ensures r.Some? ==> |r.value| == |identities|
    ensures r.Some? ==>
      forall k :: 0 <= k < |identities| ==> AttemptFor(identities[k], ownerId, setNickname) == Settles(r.value[k])
    decreases |identities|
  {
    if identities == [] then Some([])
    else
      var first := AttemptFor(identities[0], ownerId, setNickname);
      var rest := Attempts(identities[1..], ownerId, setNickname);
      assert forall k :: 0 <= k < |identities| - 1 ==> identities[1..][k] == identities[k + 1];
      if first.NotAMember? then None
      else if rest.None? then None
      else Some([first.settled] + rest.value)
  }

  /** `const [_, nickname] = reason.split(':')`: the second field, absent when there is no ':'. */
  function OwnerField(reason: string): (r: Option<string>)
    ensures r.Some? ==> ':' !in r.value
  {
    var parts := SplitOn(reason, ':');
    if |parts| >= 2 then Some(parts[1]) else None
  }

  function OwnerRemoveLine(ownerText: string): string {
    "Cannot set nickname of owner. " + ownerText + " please remove your nickname"
  }

  function OwnerSetLine(ownerText: string, nickname: string): string {
    "Cannot set nickname of owner. " + ownerText + " please set your nickname to \"" + nickname + "\""
  }

  function PermissionLine(memberText: string): string {
    "Failed to set nickname for " + memberText + ". Insufficent permissions"
  }

  /** The `results.map` callback: the report line for one settled attempt. */
  function OutcomeLine(s: Settled, ownerText: string, memberText: MemberText): string {
    match s
    case Fulfilled(username) => "Set nickname for " + username
    case Rejected(reason) =>
      if reason.ApiError? && reason.code == PermissionsCode then
        PermissionLine(memberText(Last(SplitOn(reason.path, '/'))))
      else if reason.Text? && StartsWith(reason.text, "owner") then
        var field := OwnerField(reason.text);
        if field.None? || field.value == "" then OwnerRemoveLine(ownerText)
        else OwnerSetLine(ownerText, field.value)
      else UnknownReasonLine
  }

  function Lines(settled: seq<Settled>, ownerText: string, memberText: MemberText): seq<string> {
    seq(|settled|, k requires 0 <= k < |settled| => OutcomeLine(settled[k], ownerText, memberText))
  }

  /** Template interpolation of the shifted set name, `undefined` when no argument was given. */
  function SetNameText(setName: Option<string>): string {
    if setName.Some? then setName.value else "undefined"
  }

  function ReportText(setName: Option<string>, lines: seq<string>): string {
    "Set **" + SetNameText(setName) + "** activated: \n" + Join(lines, "\n")
  }

  /** How the handler ends: it throws (and sends nothing), or it sends the report. */
  datatype Activation = Threw | Reported(send: Effect)

  /**
   * The handler for the arguments `args`, where `found` is what `getSet` gives for
   * the first of them and the owner is `ownerId`, rendered as `ownerText`.
   */
  function Activate(args: seq<string>, found: Option<IdentitySet>, ownerId: string, ownerText: string,
                    memberText: MemberText, setNickname: SetNickname): Activation {
    var setName := if args == [] then None else Some(args[0]);
    if found.None? then Threw
    else
      var settled := Attempts(found.value.identities, ownerId, setNickname);
      if settled.None? then Threw
      else Reported(Send(ReportText(setName, Lines(settled.value, ownerText, memberText)), NoMentionOpts))
  }

  /** `execute`: shift the set name off the arguments, look the set up, build the attempts, send once. */
  method Execute(args: seq<string>, found: Option<IdentitySet>, ownerId: string, ownerText: string,
                 memberText: MemberText, setNickname: SetNickname) returns (result: Activation)
    ensures result == Activate(args, found, ownerId, ownerText, memberText, setNickname)
  {
    var rest := args;
    var setName: Option<string> := None;
    if rest != [] {
      setName := Some(rest[0]);
      rest := rest[1..];
    }
    if found.None? {
      return Threw;
    }
    var settled := Attempts(found.value.identities, ownerId, setNickname);
    if settled.None? {
      return Threw;
    }
    var resultOutputs := Lines(settled.value, ownerText, memberText);
    return Reported(Send(ReportText(setName, resultOutputs), NoMentionOpts));
  }

  // ---- Properties of the activation report ----

  /**
   * When the set exists and every non-owner identity is a member, the report is sent
   * once, with mentions disabled, and holds exactly one line per identity in stored
   * order; otherwise the handler throws and sends nothing.
   */
  lemma OneLinePerIdentity(args: seq<string>, s: IdentitySet, ownerId: string, ownerText: string,
                           memberText: MemberText, setNickname: SetNickname)
    ensures Activate(args, None, ownerId, ownerText, memberText, setNickname) == Threw
    ensures Activate(args, Some(s), ownerId, ownerText, memberText, setNickname) == Threw <==>
      exists k :: 0 <= k < |s.identities| && AttemptFor(s.identities[k], ownerId, setNickname).NotAMember?
    ensures var a := Attempts(s.identities, ownerId, setNickname);
      a.Some? ==>
        var lines := Lines(a.value, ownerText, memberText);
        && |lines| == |s.identities|
        && (forall k :: 0 <= k < |lines| ==>
              lines[k] == OutcomeLine(AttemptFor(s.identities[k], ownerId, setNickname).settled, ownerText, memberText))
        && Activate(args, Some(s), ownerId, ownerText, memberText, setNickname) ==
             Reported(Send(ReportText(if args == [] then None else Some(args[0]), lines), NoMentionOpts))
  {
  }

  /**
   * The owner's identity never reaches the platform: two platforms that agree on
   * every other identity give the same outcome, and the owner's attempt is the
   * string rejection `owner:<nickname>`.
   */
  lemma OwnerNeverReachesPlatform(args: seq<string>, found: Option<IdentitySet>, ownerId: string, ownerText: string,
                                  memberText: MemberText, p: SetNickname, q: SetNickname)
    requires forall i: Identity :: i.userId != ownerId ==> p(i) == q(i)
    ensures forall i: Identity :: i.userId == ownerId ==>
      AttemptFor(i, ownerId, p) == Settles(Rejected(Text("owner:" + NickText(i.nickname))))
    ensures Activate(args, found, ownerId, ownerText, memberText, p) == Activate(args, found, ownerId, ownerText, memberText, q)
  {
    if found.Some? {
      SameAttempts(found.value.identities, ownerId, p, q);
    }
  }

  lemma {:induction false} SameAttempts(identities: seq<Identity>, ownerId: string, p: SetNickname, q: SetNickname)
    requires forall i: Identity :: i.userId != ownerId ==> p(i) == q(i)
    ensures Attempts(identities, ownerId, p) == Attempts(identities, ownerId, q)
    decreases |identities|
  {
    if identities != [] {
      SameAttempts(identities[1..], ownerId, p, q);
    }
  }

  /** The owner field of `owner:<t>` is `t` up to its first ':'. */
  lemma OwnerFieldOfReason(t: string)
    ensures OwnerField("owner:" + t) == Some(SplitOn(t, ':')[0])
    ensures ':' !in t ==> OwnerField("owner:" + t) == Some(t)
  {
    assert "owner:" + t == "owner" + [':'] + t;
    SplitOnPrefix("owner", t, ':');
    if ':' !in t {
      SplitOnPlain(t, ':');
    }
  }

  /**
   * The owner's line: an empty nickname asks the owner to remove theirs; any other
   * nickname without ':' is quoted back whole.
   */
  lemma OwnerLines(nickname: string, ownerText: string, memberText: MemberText)
    requires ':' !in nickname
    ensures OutcomeLine(Rejected(Text("owner:" + nickname)), ownerText, memberText) ==
      if nickname == "" then OwnerRemoveLine(ownerText) else OwnerSetLine(ownerText, nickname)
  {
    OwnerFieldOfReason(nickname);
    assert StartsWith("owner:" + nickname, "owner");
  }

  /** A bare `owner` string, with no ':' at all, also asks the owner to remove their nickname. */
  lemma BareOwnerReason(ownerText: string, memberText: MemberText)
    ensures OutcomeLine(Rejected(Text("owner")), ownerText, memberText) == OwnerRemoveLine(ownerText)
  {
    SplitOnPlain("owner", ':');
  }

  /** `path.split('/').pop()` of `<prefix>/<id>` is the id when the id has no '/'. */
  lemma {:induction false} LastSegment(prefix: string, id: string)
    requires '/' !in id
    ensures |SplitOn(prefix + "/" + id, '/')| >= 2
    ensures Last(SplitOn(prefix + "/" + id, '/')) == id
    decreases |prefix|
  {
    var path := prefix + "/" + id;
    if prefix == [] {
      assert path == [] + ['/'] + id;
      SplitOnPrefix([], id, '/');
      SplitOnPlain(id, '/');
    } else {
      assert path[1..] == prefix[1..] + "/" + id;
      LastSegment(prefix[1..], id);
    }
  }

  /**
   * Classification of settled outcomes: a missing-permissions API error names the
   * member whose id ends the request path; a fulfilled attempt names the user; a
   * rejection that is neither that error nor an `owner` string gets the generic line.
   */
  lemma Classification(ownerText: string, memberText: MemberText)
    ensures forall prefix: string, id: string :: '/' !in id ==>
      OutcomeLine(Rejected(ApiError(PermissionsCode, prefix + "/" + id)), ownerText, memberText) ==
        PermissionLine(memberText(id))
    ensures forall u: string :: OutcomeLine(Fulfilled(u), ownerText, memberText) == "Set nickname for " + u
    ensures forall code: int, path: string :: code != PermissionsCode ==>
      OutcomeLine(Rejected(ApiError(code, path)), ownerText, memberText) == UnknownReasonLine
    ensures forall t: string :: !StartsWith(t, "owner") ==>
      OutcomeLine(Rejected(Text(t)), ownerText, memberText) == UnknownReasonLine
    ensures OutcomeLine(Rejected(OtherError), ownerText, memberText) == UnknownReasonLine
  {
    forall prefix: string, id: string | '/' !in id
      ensures OutcomeLine(Rejected(ApiError(PermissionsCode, prefix + "/" + id)), ownerText, memberText) ==
        PermissionLine(memberText(id))
    {
      LastSegment(prefix, id);
    }
  }

  /**
   * A set of three: the owner, a member whose nickname is set, and one the bot may
   * not rename. The report has the owner's request, the success and the permission
   * failure, in that order.
   */
  lemma ThreeIdentityReport(setName: string, ownerId: string, nickname: string, a: Identity, b: Identity,
                            username: string, pathPrefix: string, ownerText: string, memberText: MemberText,
                            setNickname: SetNickname)
    requires nickname != "" && ':' !in nickname
    requires a.userId != ownerId && b.userId != ownerId && '/' !in b.userId
    requires setNickname(a) == Settles(Fulfilled(username))
    requires setNickname(b) == Settles(Rejected(ApiError(PermissionsCode, pathPrefix + "/" + b.userId)))
    ensures Activate([setName], Some(IdentitySet(setName, [Identity(ownerId, Nick(nickname)), a, b])),
                     ownerId, ownerText, memberText, setNickname) ==
      Reported(Send("Set **" + setName + "** activated: \n" +
                    OwnerSetLine(ownerText, nickname) + "\n" +
                    "Set nickname for " + username + "\n" +
                    PermissionLine(memberText(b.userId)), NoMentionOpts))
  {
    var owner := Identity(ownerId, Nick(nickname));
    var settled := [Rejected(Text("owner:" + nickname)), Fulfilled(username),
                    Rejected(ApiError(PermissionsCode, pathPrefix + "/" + b.userId))];
    AttemptsOfThree(owner, a, b, ownerId, setNickname, settled);
    var line0 := OwnerSetLine(ownerText, nickname);
    var line2 := PermissionLine(memberText(b.userId));
    OwnerLines(nickname, ownerText, memberText);
    LastSegment(pathPrefix, b.userId);
    var line1 := "Set nickname for " + username;
    LinesOfThree(settled, ownerText, memberText);
    assert OutcomeLine(settled[0], ownerText, memberText) == line0;
    assert OutcomeLine(settled[2], ownerText, memberText) == line2;
    var lines := [line0, line1, line2];
    assert Lines(settled, ownerText, memberText) == lines;
    assert Activate([setName], Some(IdentitySet(setName, [owner, a, b])), ownerId, ownerText, memberText, setNickname) ==
      Reported(Send(ReportText(Some(setName), lines), NoMentionOpts));
    ReportOfThree(setName, line0, line1, line2);
    var head := "Set **" + setName + "** activated: \n";
    assert head + line0 + "\n" + line1 + "\n" + line2 == head + line0 + "\n" + "Set nickname for " + username + "\n" + line2;
  }

  lemma LinesOfThree(settled: seq<Settled>, ownerText: string, memberText: MemberText)
    requires |settled| == 3
    ensures Lines(settled, ownerText, memberText) == [OutcomeLine(settled[0], ownerText, memberText),
      OutcomeLine(settled[1], ownerText, memberText), OutcomeLine(settled[2], ownerText, memberText)]
  {
  }

  lemma ReportOfThree(setName: string, x: string, y: string, z: string)
    ensures ReportText(Some(setName), [x, y, z]) == "Set **" + setName + "** activated: \n" + x + "\n" + y + "\n" + z
  {
    assert [x, y, z] == [x] + [y, z] && [y, z] == [y] + [z];
    JoinCons(x, [y, z], "\n");
    JoinCons(y, [z], "\n");
  }

  lemma AttemptsOfThree(x: Identity, y: Identity, z: Identity, ownerId: string, setNickname: SetNickname,
                        settled: seq<Settled>)
    requires |settled| == 3
    requires AttemptFor(x, ownerId, setNickname) == Settles(settled[0])
    requires AttemptFor(y, ownerId, setNickname) == Settles(settled[1])
    requires AttemptFor(z, ownerId, setNickname) == Settles(settled[2])
    ensures Attempts([x, y, z], ownerId, setNickname) == Some(settled)
  {
    var att := Attempts([x, y, z], ownerId, setNickname);
    assert att.Some?;
    assert att.value[0] == settled[0] && att.value[1] == settled[1] && att.value[2] == settled[2];
    assert att.value == settled;
  }

  // ---- The owner's nickname as written, and as evidently intended ----

  /**
   * As written, the owner's nickname travels inside a ':'-separated string: one
   * with a ':' in it is quoted back only up to that ':', and a `null` nickname is
   * quoted back as "null" instead of asking the owner to remove theirs.
   */
  lemma OwnerNicknameMangled(ownerText: string, memberText: MemberText, setNickname: SetNickname)
    ensures OutcomeLine(AttemptFor(Identity("7", Nick("Dr: Who")), "7", setNickname).settled, ownerText, memberText) ==
      OwnerSetLine(ownerText, "Dr")
    ensures OutcomeLine(AttemptFor(Identity("7", NullNick), "7", setNickname).settled, ownerText, memberText) ==
      OwnerSetLine(ownerText, "null")
  {
    assert "Dr: Who" == "Dr" + ":" + " Who";
    ColonTruncates("Dr", " Who", ownerText, memberText);
    OwnerLines("null", ownerText, memberText);
  }

  /** A nickname `<a>:<b>` is quoted back as `a` alone. */
  lemma ColonTruncates(a: string, b: string, ownerText: string, memberText: MemberText)
    requires a != "" && ':' !in a
    ensures OutcomeLine(Rejected(Text("owner:" + (a + ":" + b))), ownerText, memberText) == OwnerSetLine(ownerText, a)
  {
    var t := a + ":" + b;
    OwnerFieldOfReason(t);
    assert t == a + [':'] + b;
    SplitOnPrefix(a, b, ':');
    assert StartsWith("owner:" + t, "owner");
  }

  /** The intended owner rejection: the nickname after a fixed prefix, `null` carried as the empty nickname. */
  function IntendedOwnerReason(n: Nickname): string {
    "owner:" + (if n.Nick? then n.text else "")
  }

  /** The intended decode: everything after the prefix, colons included. */
  function IntendedOwnerNickname(reason: string): string {
    if StartsWith(reason, "owner:") then reason[|"owner:"|..] else ""
  }

  /** The intended line for the owner. */
  function IntendedOwnerLine(n: Nickname, ownerText: string): string {
    var nickname := IntendedOwnerNickname(IntendedOwnerReason(n));
    if nickname == "" then OwnerRemoveLine(ownerText) else OwnerSetLine(ownerText, nickname)
  }

  /**
   * Decoding the intended rejection gives the stored nickname back whole, so the
   * owner is asked for exactly that nickname, or to remove theirs when it is empty or `null`;
   * where the written code is right (a non-null nickname without ':') the two lines agree.
   */
  lemma IntendedOwnerRoundTrip(n: Nickname, ownerText: string, memberText: MemberText)
    ensures IntendedOwnerNickname(IntendedOwnerReason(n)) == (if n.Nick? then n.text else "")
    ensures n == NullNick || n == Nick("") ==> IntendedOwnerLine(n, ownerText) == OwnerRemoveLine(ownerText)
    ensures n.Nick? && n.text != "" ==> IntendedOwnerLine(n, ownerText) == OwnerSetLine(ownerText, n.text)
    ensures n.Nick? && ':' !in n.text ==>
      IntendedOwnerLine(n, ownerText) == OutcomeLine(Rejected(Text("owner:" + NickText(n))), ownerText, memberText)
  {
    var reason := IntendedOwnerReason(n);
    assert StartsWith(reason, "owner:");
    assert reason[|"owner:"|..] == (if n.Nick? then n.text else "");
    if n.Nick? && ':' !in n.text {
      OwnerLines(n.text, ownerText, memberText);
    }
  }
}
