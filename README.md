# party-identity-bot: a Dafny model of the command core

party-identity-bot is a Discord bot that saves and re-applies sets of member
nicknames. This project models the part of the bot that decides what happens to
an incoming message, and proves properties of that model:

- **the message dispatcher**, the `message` handler of `src/bot.js`. It covers
  gatekeeping, the stored guild configuration, prefix and command-name parsing,
  the inhibitor pass, argument validation and the handler call, with sync and
  async failures;
- **the argument validator**, `validateArgs` and `validArgStructure` of `src/utils.js`;
- **the command registry** of `src/commands/index.js`: an insertion-ordered
  collection filled by sixteen registrations, then given the generated help command;
- **the help generator** of `src/commands/help.js`;
- **the `botDev` inhibitor** and the comma-split developer id list;
- **the activation report** of `src/commands/sets/activateset.js`.

Effects the bot asks of the platform are values (`Platform.Effect`):

- a channel send, with its options;
- a reply to the author;
- creating a default guild row;
- running a command handler.

A dispatch is a function from the message, the stored configuration and the
registry to the ordered list of these effects.

Where the source changes things step by step, the model does too:

- `Bot.OnMessage` is an early-return method with an inhibitor loop;
- `Utils.ValidateArgs` reassigns locals and folds over the alternatives;
- `Help.Execute` reassigns the reply text;
- `Registry.CommandRegistry` is a class whose methods update its key list and map.

`Bot.OnMessage`, `Utils.ValidateArgs` and `Help.Execute` are each proved equal
to a specification function, and the properties are proved about those
functions. The methods of `Registry.CommandRegistry` state their new key list
and map outright, and `Registry` proves what a sequence of registrations leaves.

Modules: `Js` (the JavaScript string and value operations used), `Platform`,
`Utils`, `Inhibitors`, `Commands` (the descriptors of the registered commands),
`Help`, `Registry`, `Bot` and `ActivateSet`.

Where the documentation and the code disagree, the model follows the code:

- The doc comment of `argOpts` (src/utils.js:14-16) calls `min` and `max`
  non-inclusive. The comparisons at src/utils.js:59-64 make both bounds
  inclusive, and so does the model (`Utils.CountsInclusive`).
- The `Inhibitor` typedef (src/inhibitors/index.js:7-9) says a string or an
  `Inhibition` prevents the command from running. The dispatcher never stops
  for one; see "Findings".

## Model

| member | source | states |
|---|---|---|
| Js.SplitWs | src/bot.js:114 | splitting at whitespace runs gives at least one piece, and no piece contains whitespace |
| Js.JoinSplitWs | src/bot.js:114 | joining the pieces with single spaces gives the text with every whitespace run collapsed to one space, ends included, so no character other than whitespace is lost |
| Js.LowerChar | src/bot.js:115 | an ASCII capital becomes the code point 32 above it, its lower-case letter; every other character is unchanged; no result is a capital |
| Js.Lower | src/bot.js:115 | lower-casing keeps the length and maps each character on its own: an ASCII capital to the letter 32 code points above it, its lower-case form, and every other character to itself |
| Js.SplitOnJoin | src/config.js:14 | splitting the comma-join of comma-free ids gives back exactly those ids |
| Js.NumberText | src/utils.js:44-45 | an absent bound reads `undefined`, and a present one reads as the decimal rendering of the number |
| Js.NatToStringValue | src/utils.js:44-45 | the decimal rendering of a natural number reads back, digit by digit, as that number |
| Js.IntToStringValue | src/utils.js:44-45 | a rendered integer starts with `-` iff it is negative, and the digits after any sign read back as its magnitude |
| Js.JoinPart | src/commands/help.js:17-20 | `join` places every part, whole, at its offset in the joined text |
| Js.JoinLength | src/commands/help.js:20 | the joined text ends right after its last part |
| Js.JoinSeparator | src/commands/help.js:20 | in the joined text, consecutive parts are separated by exactly the separator |
| Utils.Validation | src/utils.js:29-103 | no options accept everything, and every rejection carries a non-empty message, so the dispatcher's truthiness test sees every rejection |
| Utils.ValidateArgs | src/utils.js:29-103 | the local-reassigning validator with its fold over the alternatives returns exactly `Validation` |
| Utils.ValidArgStructure | src/utils.js:111-128 | the loop accepts iff the lengths match and every argument matches the pattern at its position |
| Utils.StructureAlternatives | src/utils.js:80-96 | within the bounds: when the first element of `structure` is an array, the arguments are accepted iff they fit one of the array elements exactly; otherwise iff they fit the whole `structure` as one positional list |
| Utils.ArrayEncodingIrrelevant | src/utils.js:82 | an array element gives the same alternatives whichever of the model's two spellings of an array it uses |
| Utils.ExactOverridesBounds | src/utils.js:38-41 | a truthy `exact` makes `min` and `max` irrelevant; more arguments get the high message, fewer the low one, and exactly that many go to the structure check |
| Utils.CountsInclusive | src/utils.js:59-64 | a count between the resolved bounds, ends included, reaches the structure check, and an absent bound never fails |
| Utils.HighCheckedFirst | src/utils.js:59-64 | too many is reported before too few |
| Utils.CountErrorsPrecedeStructure | src/utils.js:59-67 | a count error is a rejection whatever the structure |
| Utils.DefaultMessageTexts | src/utils.js:44-46 | without `errorMsg` the three default texts are used, and both count messages interpolate the maximum |
| Utils.UniformMessageReplacesAll | src/utils.js:47-51 | with a non-empty string `errorMsg`, every rejection carries that text |
| Utils.PerKindReplacesSetFields | src/utils.js:52-56 | an object `errorMsg` replaces exactly the messages whose fields are non-empty |
| Utils.FlatListIsOneAlternative | src/utils.js:82-86 | a pattern list whose first pattern is not an array validates exactly like the list holding that one alternative |
| Utils.PatternsAcceptIffSomeAlternativeFits | src/utils.js:88-96 | within the bounds, a pattern structure accepts iff some alternative fits, and otherwise sends the structure message |
| Utils.CustomAndUnrecognizedStructures | src/utils.js:73-99 | within the bounds, a custom predicate decides acceptance both ways, and any other structure value throws |
| Utils.IntendedLowMessageNamesMinimum | src/utils.js:45 | the corrected validator accepts and rejects exactly the same lists; its default low message names the resolved minimum, which a list of that length clears; every other verdict is unchanged |
| Inhibitors.BotDev | src/inhibitors/botDev.js:5-10 | no objection iff the author's id is a developer id; otherwise exactly the bare reason `not-developer`; never an object result |
| Inhibitors.DeveloperIdsMembership | src/inhibitors/botDev.js:6 | for comma-free ids, the split environment list is those ids, and an author passes iff their id equals one of them exactly |
| Commands.Registered | src/commands/index.js:59-74 | sixteen descriptors whose names are, in order, the names listed in `RegisteredNames` |
| Commands.RegisteredNamesDistinct | src/commands/index.js:59-74 | the sixteen registered names are pairwise distinct and none of them is `help` |
| Commands.RegisteredRestrictions | src/commands/index.js:59-74 | `version`, second in order, is the one hidden descriptor and the one with inhibitors |
| Commands.CreateSetFromGroupRejectsAll | src/commands/sets/createsetfromgroup.js:12-15 | `exact: 1` with a flat two-pattern structure rejects every argument list |
| Commands.UpdateSetAcceptsOneOrTwo | src/commands/sets/updateset.js:14-18 | updateset accepts exactly a set name alone, or a set name followed by a mention; more than two arguments, or none, get the count messages |
| Commands.MentionPairEitherOrder | src/commands/sets/addtoset.js:16-26 | the two-alternative mention structure accepts exactly two arguments, with the mention on either side |
| Commands.SetPairMessages | src/commands/sets/addtoset.js:18-21 | addtoset's custom high and low messages are sent for counts above and below two, and the structure message stays the default |
| Commands.UpdateSetLowMessageMisstatesMinimum | src/utils.js:45 | as written, updateset tells an empty list the minimum is 2 although a set name alone is accepted; the corrected validator says 1 and still accepts it |
| Help.CmdStringLayout | src/commands/help.js:6-7 | an entry opens with the bold code-quoted name; right after the closing backquote comes `*** ` when the command has inhibitors and `** ` otherwise, which closes the bold; the quoted usage comes next iff usage is set, and otherwise the newline; the entry ends with a newline and the description |
| Help.VisibleAppend | src/commands/help.js:17-20 | the listing keeps registration order: filtering a concatenation concatenates the filtered parts |
| Help.VisibleContains | src/commands/help.js:17-18 | every descriptor that is not hidden is listed |
| Help.EntryOfMember | src/commands/help.js:19 | the `cmdString` of every listed descriptor is among the listing's entries |
| Help.ListingLayout | src/commands/help.js:16-20 | the listing opens with the fixed help header; each non-hidden descriptor's `cmdString` follows at its offset, the first straight after the header, in registration order, with one newline between consecutive entries; the text ends with the last entry, and is the header alone when no descriptor is listed |
| Help.HelpReply | src/commands/help.js:29-46 | with no target: the listing, plus the footnote iff the flag is set; with an absent or hidden target: exactly `Unrecognized command`; with a visible target: its entry, plus the restricted-use note iff it has inhibitors |
| Help.Execute | src/commands/help.js:29-49 | the reassigning handler sends exactly once, the text `HelpReply` describes |
| Help.TargetEntryIsListed | src/commands/help.js:36-44 | a visible target from the generated-from list is answered with the very entry the full listing shows for it, followed by the restricted-use note iff it has inhibitors |
| Help.LaterArgumentsIgnored | src/commands/help.js:35-36 | only the first argument is read: any arguments after it leave the reply unchanged |
| Help.TargetLookupIsExact | src/commands/help.js:37-39 | lookup is by the exact target string, with no case folding: a target not in the collection is unrecognized whatever follows it, even when its lower-case form names a listed command that would be answered |
| Registry.CommandRegistry.constructor | src/commands/index.js:23 | a new collection is empty |
| Registry.CommandRegistry.Set | src/commands/index.js:47 | the map gets the new value; a new key goes last and an existing key keeps its place; no other entry changes |
| Registry.CommandRegistry.Register | src/commands/index.js:46-48 | a descriptor is stored under its own name, and the last registration wins |
| Registry.CommandRegistry.Values | src/commands/help.js:17-22 | the descriptors in key order, as iteration sees them |
| Registry.RegisterInOrder | src/commands/index.js:59-74 | registering distinct descriptors in order leaves exactly their names, in order, each mapped to its descriptor |
| Registry.BuildFrom | src/commands/index.js:59-78 | for any distinctly named descriptors none of which is `help`: the collection holds them in order and then `help`, and the help state is generated from them alone |
| Registry.ValuesAfterInsert | src/commands/index.js:78 | inserting a new key leaves the earlier values in place and appends the new value last |
| Registry.BuildCommands | src/commands/index.js:59-78 | the final collection holds the sixteen descriptors in order and then `help`, 17 names. The help state is generated from the sixteen alone |
| Registry.HelpResolvesOnlyThroughLiveLookup | src/commands/help.js:37 | `help` is not in the listing, yet asking for it in the live collection answers with its own entry |
| Registry.NameNotListed | src/commands/help.js:17-22 | a name no descriptor carries does not occur in the listing |
| Registry.FootnoteComesFromHiddenCommand | src/commands/help.js:22 | the footnote is shown because of the hidden `version`, though no listed entry has a `*` |
| Bot.OnMessage | src/bot.js:68-171 | the early-return handler emits exactly the effects `Dispatch` describes |
| Bot.RunCommandSteps | src/bot.js:127-169 | the `try` block emits exactly what `RunCommand` describes |
| Bot.RunInhibitors | src/bot.js:134-148 | the loop calls each inhibitor on the message once, in list order, makes exactly the sends `InhibitorEffects` gives for those results, and throws exactly when it does |
| Bot.InhibitorEffects | src/bot.js:137-146 | the pass sends at most one message per inhibitor, and each with the default options |
| Bot.InhibitorEffectsMeaning | src/bot.js:137-146 | the pass throws iff some result is `null` or throws; it sends nothing unless some object result has both a reason and a response; every text it sends is such a response |
| Bot.InhibitorEffectsAppend | src/bot.js:135-147 | results are processed in list order: the sends of a concatenation are those of its parts in order |
| Bot.OneInhibitorResult | src/bot.js:137-146 | one result sends its response iff it is an object with a non-empty reason and a non-empty response; a bare reason is silent |
| Bot.Gatekeeping | src/bot.js:78-90 | the bot's own and other bots' messages produce nothing; a direct message produces exactly the DM notice |
| Bot.MissingConfigurationCreatesDefaults | src/bot.js:93-101 | without a stored configuration, exactly the default row and its notice, and no command |
| Bot.NoPrefixNoEffects | src/bot.js:104-107 | content without the stored prefix produces nothing |
| Bot.Parsing | src/bot.js:114-124 | at least one token and none with whitespace; rejoined they are the text after the prefix with whitespace runs collapsed; the first token lower-cased is the name looked up, and the rest are the arguments unchanged; an unknown name gets only the help hint |
| Bot.InhibitorsNeverBlock | src/bot.js:134-164 | as written, unless an inhibitor throws, accepted arguments always reach the handler after the inhibitors' sends |
| Bot.NoArgumentsNoValidation | src/bot.js:151-156 | a descriptor without `arguments` always runs its handler, and nothing but inhibitor responses is sent |
| Bot.RejectedArgumentsSkipHandler | src/bot.js:151-156 | rejected arguments get their message and the handler does not run |
| Bot.HandlerFailures | src/bot.js:159-169 | a failing sync handler is followed by the one error reply; an async failure looks exactly like success |
| Bot.RunCommandShape | src/bot.js:127-169 | one invocation makes at most one error reply and at most one handler call, and the call is for the given name and arguments |
| Bot.DispatchShape | src/bot.js:68-171 | any message causes at most one error reply and at most one handler call; the call names a registered command with the parsed arguments |
| Bot.BotDevSendsNothing | src/bot.js:137-146 | a command guarded by botDev never gets an inhibitor response, and its pass never throws |
| Bot.VersionResolves | src/bot.js:104-125 | under any stored prefix, the prefix followed by `version` resolves to the registered `version` with no arguments |
| Bot.NonDeveloperRunsVersion | src/bot.js:142 | for any developer id list and any prefix, an author not in the list who sends the prefix and `version` runs the developer-only handler although botDev objects |
| Bot.FirstStop | src/inhibitors/index.js:7-9 | the first result that objects or throws, with no earlier one doing either |
| Bot.GatedPassBlocks | src/inhibitors/index.js:7-9 | with the corrected gate, an objection keeps the handler from running and sends at most one message; with no objection or throw, the gated and the written dispatch agree |
| Bot.GatedRefusesNonDeveloper | src/inhibitors/botDev.js:9 | with the corrected gate, `version` invoked by an author not in the developer id list produces nothing, whatever the message content |
| ActivateSet.Attempts | src/commands/sets/activateset.js:21-28 | one settled outcome per identity, in stored order, or a throw exactly when some non-owner identity is not a member |
| ActivateSet.OwnerField | src/commands/sets/activateset.js:45 | the recovered nickname field never contains `:` |
| ActivateSet.Execute | src/commands/sets/activateset.js:14-69 | the handler, with the set name shifted off, ends exactly as `Activate` describes |
| ActivateSet.OneLinePerIdentity | src/commands/sets/activateset.js:19-63 | an unknown set throws; otherwise a throw happens iff some non-owner identity is not a member; when none is missing, exactly one report is sent with mentions disabled, with one line per identity in stored order |
| ActivateSet.OwnerNeverReachesPlatform | src/commands/sets/activateset.js:22-25 | the owner's attempt is the rejection `owner:<nickname>`, and the outcome does not depend on what the platform would do for the owner |
| ActivateSet.OwnerFieldOfReason | src/commands/sets/activateset.js:45 | the field recovered from `owner:<t>` is `t` up to its first `:` |
| ActivateSet.OwnerLines | src/commands/sets/activateset.js:44-51 | for a nickname without `:`: an empty one asks the owner to remove theirs, and any other is quoted back whole |
| ActivateSet.BareOwnerReason | src/commands/sets/activateset.js:45-47 | a reason `owner` with no field asks the owner to remove their nickname |
| ActivateSet.LastSegment | src/commands/sets/activateset.js:37 | the last `/`-segment of `<prefix>/<id>` is the id |
| ActivateSet.Classification | src/commands/sets/activateset.js:35-57 | a 50013 API error names the member at the end of the path; a success names the user; any other API error, any string not starting with `owner` and any other error get the generic line |
| ActivateSet.ThreeIdentityReport | src/commands/sets/activateset.js:21-63 | for the owner, a renamed member and a member the bot may not rename, the report is the header, then the owner's request, the success and the permission failure, in that order |
| ActivateSet.OwnerNicknameMangled | src/commands/sets/activateset.js:45 | as written, the owner with nickname `Dr: Who` is asked for `Dr`, and one with a `null` nickname is asked for `null` |
| ActivateSet.ColonTruncates | src/commands/sets/activateset.js:44-46 | as written, an owner nickname `a:b` with a non-empty, colon-free `a` is quoted back as `a` alone |
| ActivateSet.IntendedOwnerRoundTrip | src/commands/sets/activateset.js:24 | the corrected encoding decodes to the stored nickname whole; an empty or null nickname asks the owner to remove theirs; where the code is right, the corrected and the written line agree |

## Left out

- Discord client plumbing is not modelled: login, `ready`, `guildCreate`, the
  error handler and shutdown (src/bot.js:9-66, 173-186). The actual `send`,
  `reply` and `setNickname` calls appear only as effects or inputs.
- Logging is left out everywhere, including the logged-only branch for a
  truthy non-object inhibitor result. `getRandElem` uses `Math.random` and is
  out of scope. `src/config.js` beyond the developer id split is out too.
- `getServer`, `addServer` and `getSet` (src/db/) are not part of this model.
  - The stored guild configuration and the set `getSet` returns are inputs.
  - Creating the default row is the `AddServer` effect.
- The regex engine and `USERS_PATTERN` come from discord.js and are abstract.
  - Matching is an `Engine` parameter, and custom structure functions are values.
  - The name pattern is tied to its character class only through `Utils.NameSound`.
- `toLowerCase` and `\s` are modelled for ASCII only.
- The Error text thrown for an unrecognized structure is not modelled (`Verdict.Throws`).
- Command handler bodies are not modelled. A handler call is one `Execute` effect,
  and `HandlerOutcome` says whether it fails. For a sync handler, throwing
  otherwise than at once is not distinguished.
- Bot.RunCommandSteps: the async handler's rejection is only logged, so it adds
  no effect. Promise scheduling after `execute` returns is not modelled.
- Inhibitor results are `Inhibitors.Inhibition` values. A `true` result behaves
  like a non-empty bare reason string and has no separate case.
- Registry.RegisterInOrder: the sixteen `registerCommand` calls are written as
  one loop over the descriptors in the same order.
- Registry.CommandRegistry: only `set`, iteration and lookup of the Discord
  `Collection` are modelled.
- Help.ListingLayout: the footnote flag `hasInhibitedCmds` is stated only
  through `Registry.FootnoteComesFromHiddenCommand` and `Help.HelpReply`.
- Utils.FlatListIsOneAlternative: a list whose first pattern is itself an array
  is nested in JavaScript (src/utils.js:82), so it is excluded from this lemma and
  covered by `Utils.StructureAlternatives`.
- The numbers `min`, `max` and `exact` of an `argOpts` object are modelled as
  `Option<int>`, with an absent field as `None`. A `null`, fractional or NaN bound
  is not modelled. No descriptor in src/commands sets one.
- Commands.Registered: descriptors that declare `args` instead of `arguments`
  have no validation options. The command handler files are used only for
  their descriptor fields.
- ActivateSet.Attempts: `Promise.allSettled` concurrency is not modelled. The
  settled outcomes are taken in identity order. Nicknames set by calls started
  before a throwing member lookup are not tracked.
- Rendering is a parameter, because discord.js renders members and these
  strings are not visible. This covers how a member or the owner renders in text
  (`MemberText`, `ownerText`) and the audit-log reason passed to `setNickname`.
- ActivateSet.Execute: the promise chain's own `.catch` (src/commands/sets/activateset.js:65)
  only logs.

## Findings

| source | as written | input that shows it | evidently intended | confidence | as-written member | corrected member |
|---|---|---|---|---|---|---|
| src/bot.js:142 | the `return` inside the `forEach` callback only ends that callback, so a blocking inhibitor result is logged and dispatch goes on to validation and the handler | a non-developer sends `!version`: botDev returns `not-developer` and the version handler still runs | a string or object result stops the command, as the `Inhibitor` typedef says (src/inhibitors/index.js:7-9) | not executed | Bot.NonDeveloperRunsVersion | Bot.GatedPassBlocks |
| src/utils.js:45 | the default low message interpolates `max` | updateset (`min: 1, max: 2`) with no arguments answers "min 2 required", though one set name alone is accepted | interpolate the resolved minimum | not executed | Commands.UpdateSetLowMessageMisstatesMinimum | Utils.IntendedLowMessageNamesMinimum |
| src/commands/sets/activateset.js:45 | the owner's nickname is carried inside the string `owner:<nickname>` and recovered as the second `:`-field | owner nickname `Dr: Who` is asked for `Dr`; a `null` stored nickname is asked for `null` | the nickname after the first `:` whole, and an absent nickname asks the owner to remove theirs | not executed | ActivateSet.OwnerNicknameMangled | ActivateSet.IntendedOwnerRoundTrip |
