/**
 * The argument validator of src/utils.js: `validateArgs` checks an argument list
 * against a command's argument options (count bounds, error-message overrides and
 * an optional positional structure), and `validArgStructure` matches a list
 * against one positional pattern list.
 */
module Utils {
  import opened Js

  /**
   * A regular expression as a value: one known by its source text, discord.js's
   * `MessageMentions.USERS_PATTERN` (whose source is not part of this model), or a
   * nested array that `String.prototype.match` coerces into a regular expression.
   */
  datatype Pattern = Regex(source: string) | UsersPattern | ArrayAsRegex(items: seq<Pattern>)

  /** The regular-expression engine: whether `s.match(p)` finds a match. */
  type Engine = (string, Pattern) -> bool

  /** The source of `SET_NAME_PATTERN` and `GROUP_NAME_PATTERN` in src/enums.js. */
  const NameSource: string := "^[\\w-]+$"
  const SetNamePattern: Pattern := Regex(NameSource)
  const GroupNamePattern: Pattern := Regex(NameSource)

  predicate IsNameChar(c: char) {
    'a' <= c <= 'z' || 'A' <= c <= 'Z' || '0' <= c <= '9' || c == '_' || c == '-'
  }

  /** What `^[\w-]+$` accepts over ASCII: one or more word characters or hyphens. */
  predicate IsNameWord(s: string) {
    |s| > 0 && forall k :: 0 <= k < |s| ==> IsNameChar(s[k])
  }

  /** An engine that agrees with the concrete name pattern. */
  ghost predicate NameSound(engine: Engine) {
    forall s :: engine(s, Regex(NameSource)) == IsNameWord(s)
  }

  /** An element of a `structure` array: a pattern, or a nested array of patterns. */
  datatype Item = One(pattern: Pattern) | Many(patterns: seq<Pattern>)

  /**
   * The `structure` option: absent (or falsy), a custom predicate over the whole
   * list, an array of patterns or of pattern arrays, or any other truthy value.
   */
  datatype Structure =
    | NoStructure
    | Custom(accepts: seq<string> -> bool)
    | Patterns(items: seq<Item>)
    | Unrecognized

  /**
   * The `errorMsg` option: absent, one string for all three messages, or an object
   * with optional `highMsg`, `lowMsg` and `structMsg` (an absent field is "").
   */
  datatype ErrorMsg = NoErrorMsg | Uniform(text: string) | PerKind(highMsg: string, lowMsg: string, structMsg: string)

  /** The `argOpts` object; `None` bounds are `undefined`. */
  datatype ArgOpts = ArgOpts(min: Option<int>, max: Option<int>, exact: Option<int>, errorMsg: ErrorMsg, structure: Structure)

  /** `validateArgs`'s outcome: `null`, an error message, or the thrown "Unrecognized command structure format". */
  datatype Verdict = Accepted | Rejected(message: string) | Throws

  datatype Messages = Messages(high: string, low: string, struct: string)

  /** A number option is truthy when present and non-zero. */
  predicate Truthy(n: Option<int>) {
    n.Some? && n.value != 0
  }

  /** The bounds after a truthy `exact` has overridden both. */
  function ResolvedMin(o: ArgOpts): Option<int> {
    if Truthy(o.exact) then o.exact else o.min
  }

  function ResolvedMax(o: ArgOpts): Option<int> {
    if Truthy(o.exact) then o.exact else o.max
  }

  /** A comparison with `undefined` is false, so an absent bound never fails. */
  predicate TooMany(n: nat, max: Option<int>) {
    max.Some? && n > max.value
  }

  predicate TooFew(n: nat, min: Option<int>) {
    min.Some? && n < min.value
  }

  /** The default messages; the low one interpolates the maximum, as the code does. */
  function DefaultMessages(max: Option<int>): Messages {
    Messages(
      "Too many arguments, max " + NumberText(max) + " allowed",
      "Not enough arguments, min " + NumberText(max) + " required",
      "Incorrect argument types")
  }

  function Override(default: string, custom: string): string {
    if custom != "" then custom else default
  }

  function ResolvedMessages(o: ArgOpts): Messages {
    var d := DefaultMessages(ResolvedMax(o));
    match o.errorMsg
    case NoErrorMsg => d
    case Uniform(t) => if t != "" then Messages(t, t, t) else d
    case PerKind(h, l, s) => Messages(Override(d.high, h), Override(d.low, l), Override(d.struct, s))
  }

  function AsPattern(item: Item): Pattern {
    match item
    case One(p) => p
    case Many(ps) => ArrayAsRegex(ps)
  }

  /**
   * Whether a `structure` element is a JavaScript array, as `instanceof Array` sees
   * it: a nested pattern list, or a pattern that is itself an array.
   */
  predicate IsArrayItem(item: Item) {
    item.Many? || item.pattern.ArrayAsRegex?
  }

  /** The elements of an array element, however it is written. */
  function ArrayItems(item: Item): seq<Pattern>
    requires IsArrayItem(item)
  {
    if item.Many? then item.patterns else item.pattern.items
  }

  /** The whole `structure` array taken as one positional pattern list. */
  function Flattened(items: seq<Item>): (r: seq<Pattern>)
    ensures |r| == |items|
  {
    seq(|items|, k requires 0 <= k < |items| => AsPattern(items[k]))
  }

  /** Whether `structure[0] instanceof Array`. */
  predicate Nested(items: seq<Item>) {
    |items| > 0 && IsArrayItem(items[0])
  }

  /**
   * The alternatives a `structure` array stands for: the items themselves when the
   * first is an array, otherwise the whole array as the single alternative. A plain
   * pattern among alternatives has no `length`, so it never matches: `None`.
   */
  function Alternatives(items: seq<Item>): (r: seq<Option<seq<Pattern>>>)
    ensures Nested(items) ==> |r| == |items|
    ensures !Nested(items) ==> |r| == 1
  {
    if Nested(items) then
      seq(|items|, k requires 0 <= k < |items| => if IsArrayItem(items[k]) then Some(ArrayItems(items[k])) else None)
    else
      [Some(Flattened(items))]
  }

  /** Same length, and every argument matches the pattern at its position. */
  predicate Conforms(args: seq<string>, structure: seq<Pattern>, engine: Engine) {
    |args| == |structure| && forall i :: 0 <= i < |args| ==> engine(args[i], structure[i])
  }

  predicate Fits(args: seq<string>, alt: Option<seq<Pattern>>, engine: Engine) {
    alt.Some? && Conforms(args, alt.value, engine)
  }

  predicate AnyFits(args: seq<string>, alts: seq<Option<seq<Pattern>>>, engine: Engine) {
    exists k :: 0 <= k < |alts| && Fits(args, alts[k], engine)
  }

  /** The structure check alone, once the counts have passed. */
  function StructureVerdict(args: seq<string>, s: Structure, structMsg: string, engine: Engine): Verdict {
    match s
    case NoStructure => Accepted
    case Custom(accepts) => if accepts(args) then Accepted else Rejected(structMsg)
    case Patterns(items) => if AnyFits(args, Alternatives(items), engine) then Accepted else Rejected(structMsg)
    case Unrecognized => Throws
  }

  /** What `validateArgs(args, argOpts)` returns or throws. */
  function Validation(args: seq<string>, argOpts: Option<ArgOpts>, engine: Engine): (r: Verdict)
    ensures argOpts.None? ==> r == Accepted
    ensures r.Rejected? ==> r.message != ""
  {
    if argOpts.None? then Accepted
    else
      var o := argOpts.value;
      var msgs := ResolvedMessages(o);
      if TooMany(|args|, ResolvedMax(o)) then Rejected(msgs.high)
      else if TooFew(|args|, ResolvedMin(o)) then Rejected(msgs.low)
      else StructureVerdict(args, o.structure, msgs.struct, engine)
  }

  /** `validArgStructure`: a length check, then a loop that stops at the first mismatch. */
  method ValidArgStructure(args: seq<string>, structure: seq<Pattern>, engine: Engine) returns (ok: bool)
    ensures ok == Conforms(args, structure, engine)
  {
    if |args| != |structure| {
      return false;
    }
    for i := 0 to |args|
      invariant forall j :: 0 <= j < i ==> engine(args[j], structure[j])
    {
      if !engine(args[i], structure[i]) {
        return false;
      }
    }
    return true;
  }

  /** `validateArgs`: resolve bounds and messages in locals, check counts, then fold over the alternatives. */
  method ValidateArgs(args: seq<string>, argOpts: Option<ArgOpts>, engine: Engine) returns (v: Verdict)
    ensures v == Validation(args, argOpts, engine)
  {
    if argOpts.None? {
      return Accepted;
    }
    var o := argOpts.value;
    var min, max := o.min, o.max;
    if Truthy(o.exact) {
      min := o.exact;
      max := o.exact;
    }
    var highMsg := "Too many arguments, max " + NumberText(max) + " allowed";
    var lowMsg := "Not enough arguments, min " + NumberText(max) + " required";
    var structMsg := "Incorrect argument types";
    if o.errorMsg.Uniform? && o.errorMsg.text != "" {
      highMsg := o.errorMsg.text;
      lowMsg := o.errorMsg.text;
      structMsg := o.errorMsg.text;
    }
    if o.errorMsg.PerKind? {
      if o.errorMsg.highMsg != "" { highMsg := o.errorMsg.highMsg; }
      if o.errorMsg.lowMsg != "" { lowMsg := o.errorMsg.lowMsg; }
      if o.errorMsg.structMsg != "" { structMsg := o.errorMsg.structMsg; }
    }
    assert Messages(highMsg, lowMsg, structMsg) == ResolvedMessages(o);

    if max.Some? && |args| > max.value {
      return Rejected(highMsg);
    }
    if min.Some? && |args| < min.value {
      return Rejected(lowMsg);
    }

    match o.structure {
      case NoStructure =>
        return Accepted;
      case Custom(accepts) =>
        if !accepts(args) {
          return Rejected(structMsg);
        }
        return Accepted;
      case Patterns(items) =>
        var structures := Alternatives(items);
        var structMatch := false;
        for k := 0 to |structures|
          invariant structMatch <==> exists j :: 0 <= j < k && Fits(args, structures[j], engine)
        {
          if !structMatch && structures[k].Some? {
            structMatch := ValidArgStructure(args, structures[k].value, engine);
          }
        }
        if !structMatch {
          return Rejected(structMsg);
        }
        return Accepted;
      case Unrecognized =>
        return Throws;
    }
  }

  // ---- Properties of the validator ----

  /** A truthy `exact` decides both bounds: whatever `min` and `max` say is ignored. */
  lemma ExactOverridesBounds(args: seq<string>, o: ArgOpts, min: Option<int>, max: Option<int>, engine: Engine)
    requires Truthy(o.exact)
    ensures Validation(args, Some(o), engine) == Validation(args, Some(o.(min := min, max := max)), engine)
    ensures |args| > o.exact.value ==> Validation(args, Some(o), engine) == Rejected(ResolvedMessages(o).high)
    ensures |args| < o.exact.value ==> Validation(args, Some(o), engine) == Rejected(ResolvedMessages(o).low)
    ensures |args| == o.exact.value ==>
      Validation(args, Some(o), engine) == StructureVerdict(args, o.structure, ResolvedMessages(o).struct, engine)
  {
  }

  /**
   * The count checks are inclusive: a length between the resolved bounds, either
   * end included, goes on to the structure check; an absent bound never fails.
   */
  lemma CountsInclusive(args: seq<string>, o: ArgOpts, engine: Engine)
    requires ResolvedMin(o).None? || ResolvedMin(o).value <= |args|
    requires ResolvedMax(o).None? || |args| <= ResolvedMax(o).value
    ensures Validation(args, Some(o), engine) == StructureVerdict(args, o.structure, ResolvedMessages(o).struct, engine)
  {
  }

  /** Too many is checked first: it wins even when the list is also below the minimum. */
  lemma HighCheckedFirst(args: seq<string>, o: ArgOpts, engine: Engine)
    ensures TooMany(|args|, ResolvedMax(o)) ==> Validation(args, Some(o), engine) == Rejected(ResolvedMessages(o).high)
    ensures !TooMany(|args|, ResolvedMax(o)) && TooFew(|args|, ResolvedMin(o)) ==>
      Validation(args, Some(o), engine) == Rejected(ResolvedMessages(o).low)
  {
  }

  /** A count error does not depend on the structure at all. */
  lemma CountErrorsPrecedeStructure(args: seq<string>, o: ArgOpts, s: Structure, engine: Engine)
    requires TooMany(|args|, ResolvedMax(o)) || TooFew(|args|, ResolvedMin(o))
    ensures Validation(args, Some(o), engine) == Validation(args, Some(o.(structure := s)), engine)
    ensures Validation(args, Some(o), engine).Rejected?
  {
  }

  /** Without `errorMsg` the messages are the fixed defaults, and both count messages name the maximum. */
  lemma DefaultMessageTexts(o: ArgOpts)
    requires o.errorMsg == NoErrorMsg || o.errorMsg == Uniform("")
    ensures ResolvedMessages(o).high == "Too many arguments, max " + NumberText(ResolvedMax(o)) + " allowed"
    ensures ResolvedMessages(o).low == "Not enough arguments, min " + NumberText(ResolvedMax(o)) + " required"
    ensures ResolvedMessages(o).struct == "Incorrect argument types"
  {
  }

  /** A non-empty string `errorMsg` is the only message the validator can return. */
  lemma UniformMessageReplacesAll(args: seq<string>, o: ArgOpts, engine: Engine)
    requires o.errorMsg.Uniform? && o.errorMsg.text != ""
    ensures Validation(args, Some(o), engine).Rejected? ==> Validation(args, Some(o), engine).message == o.errorMsg.text
  {
  }

  /** An object `errorMsg` replaces exactly the messages whose fields it sets to non-empty strings. */
  lemma PerKindReplacesSetFields(o: ArgOpts)
    requires o.errorMsg.PerKind?
    ensures var d := DefaultMessages(ResolvedMax(o)); var m := ResolvedMessages(o);
      && (m.high == if o.errorMsg.highMsg != "" then o.errorMsg.highMsg else d.high)
      && (m.low == if o.errorMsg.lowMsg != "" then o.errorMsg.lowMsg else d.low)
      && (m.struct == if o.errorMsg.structMsg != "" then o.errorMsg.structMsg else d.struct)
  {
  }

  /**
   * A flat pattern list, whose first pattern is not itself an array, means the same
   * as the list holding that one alternative.
   */
  lemma FlatListIsOneAlternative(args: seq<string>, o: ArgOpts, ps: seq<Pattern>, engine: Engine)
    requires ps == [] || !ps[0].ArrayAsRegex?
    ensures Validation(args, Some(o.(structure := Patterns(seq(|ps|, i requires 0 <= i < |ps| => One(ps[i]))))), engine)
         == Validation(args, Some(o.(structure := Patterns([Many(ps)]))), engine)
  {
    var flat := seq(|ps|, i requires 0 <= i < |ps| => One(ps[i]));
    assert Flattened(flat) == ps;
    if |ps| > 0 {
      assert Alternatives(flat) == [Some(ps)];
    } else {
      assert flat == [];
    }
    assert Alternatives([Many(ps)]) == [Some(ps)];
  }

  /**
   * What a pattern structure accepts, within the bounds: when its first element is an
   * array, a list fitting one of the array elements exactly (a plain pattern among them
   * never fits); otherwise a list fitting the whole structure position by position.
   */
  lemma StructureAlternatives(args: seq<string>, o: ArgOpts, engine: Engine)
    requires o.structure.Patterns?
    requires !TooMany(|args|, ResolvedMax(o)) && !TooFew(|args|, ResolvedMin(o))
    ensures Nested(o.structure.items) ==>
      (Validation(args, Some(o), engine) == Accepted <==>
        exists k :: 0 <= k < |o.structure.items| && IsArrayItem(o.structure.items[k]) &&
          Conforms(args, ArrayItems(o.structure.items[k]), engine))
    ensures !Nested(o.structure.items) ==>
      (Validation(args, Some(o), engine) == Accepted <==> Conforms(args, Flattened(o.structure.items), engine))
  {
    var items := o.structure.items;
    var alts := Alternatives(items);
    if Nested(items) {
      if AnyFits(args, alts, engine) {
        var k :| 0 <= k < |alts| && Fits(args, alts[k], engine);
        assert IsArrayItem(items[k]) && Conforms(args, ArrayItems(items[k]), engine);
      }
      forall k | 0 <= k < |items| && IsArrayItem(items[k]) && Conforms(args, ArrayItems(items[k]), engine)
        ensures AnyFits(args, alts, engine)
      {
        assert Fits(args, alts[k], engine);
      }
    } else {
      assert Fits(args, alts[0], engine) <==> Conforms(args, Flattened(items), engine);
    }
  }

  /** A structure element written as a nested list in place of an array pattern. */
  function AsMany(item: Item): Item {
    if item.One? && item.pattern.ArrayAsRegex? then Many(item.pattern.items) else item
  }

  /**
   * The two ways of writing an array element denote the same JavaScript value, so
   * they give the same alternatives.
   */
  lemma ArrayEncodingIrrelevant(items: seq<Item>)
    ensures Alternatives(seq(|items|, k requires 0 <= k < |items| => AsMany(items[k]))) == Alternatives(items)
  {
    var m := seq(|items|, k requires 0 <= k < |items| => AsMany(items[k]));
    assert Nested(m) <==> Nested(items);
    assert Flattened(m) == Flattened(items);
  }

  /** Within the bounds, a pattern structure accepts iff some alternative fits exactly. */
  lemma PatternsAcceptIffSomeAlternativeFits(args: seq<string>, o: ArgOpts, engine: Engine)
    requires o.structure.Patterns?
    requires !TooMany(|args|, ResolvedMax(o)) && !TooFew(|args|, ResolvedMin(o))
    ensures Validation(args, Some(o), engine) == Accepted <==> AnyFits(args, Alternatives(o.structure.items), engine)
    ensures Validation(args, Some(o), engine) != Accepted ==> Validation(args, Some(o), engine) == Rejected(ResolvedMessages(o).struct)
  {
  }

  /** Within the bounds, a custom predicate decides; any other truthy structure value throws. */
  lemma CustomAndUnrecognizedStructures(args: seq<string>, o: ArgOpts, engine: Engine)
    requires !TooMany(|args|, ResolvedMax(o)) && !TooFew(|args|, ResolvedMin(o))
    ensures o.structure.Custom? ==>
      (Validation(args, Some(o), engine) == Accepted <==> o.structure.accepts(args))
    ensures o.structure.Custom? && !o.structure.accepts(args) ==>
      Validation(args, Some(o), engine) == Rejected(ResolvedMessages(o).struct)
    ensures o.structure.Unrecognized? ==> Validation(args, Some(o), engine) == Throws
  {
  }

  /**
   * The low message as evidently intended: it names the resolved minimum (the code
   * interpolates the maximum, see `DefaultMessages`).
   */
  function IntendedLowMessage(o: ArgOpts): string {
    "Not enough arguments, min " + NumberText(ResolvedMin(o)) + " required"
  }

  /** Whether `errorMsg` supplies its own low message, which then stands as written. */
  predicate CustomLowMessage(e: ErrorMsg) {
    (e.Uniform? && e.text != "") || (e.PerKind? && e.lowMsg != "")
  }

  /** The validator as evidently intended: a too-short list is told the real minimum. */
  function IntendedValidation(args: seq<string>, argOpts: Option<ArgOpts>, engine: Engine): (r: Verdict)
    ensures argOpts.None? ==> r == Accepted
  {
    if argOpts.Some? && !TooMany(|args|, ResolvedMax(argOpts.value)) && TooFew(|args|, ResolvedMin(argOpts.value))
       && !CustomLowMessage(argOpts.value.errorMsg)
    then Rejected(IntendedLowMessage(argOpts.value))
    else Validation(args, argOpts, engine)
  }

  /**
   * The intended validator accepts and rejects exactly the same lists and differs
   * only in the default low message, which names the minimum the list fell short of:
   * a list of that many arguments clears the low check.
   */
  lemma IntendedLowMessageNamesMinimum(args: seq<string>, o: ArgOpts, engine: Engine)
    ensures IntendedValidation(args, Some(o), engine).Rejected? <==> Validation(args, Some(o), engine).Rejected?
    ensures IntendedValidation(args, Some(o), engine) == Accepted <==> Validation(args, Some(o), engine) == Accepted
    ensures !TooMany(|args|, ResolvedMax(o)) && TooFew(|args|, ResolvedMin(o)) && !CustomLowMessage(o.errorMsg) ==>
      && ResolvedMin(o).Some? && |args| < ResolvedMin(o).value
      && IntendedValidation(args, Some(o), engine) ==
           Rejected("Not enough arguments, min " + IntToString(ResolvedMin(o).value) + " required")
      && (forall n: nat :: n == ResolvedMin(o).value ==> !TooFew(n, ResolvedMin(o)))
    ensures !(!TooMany(|args|, ResolvedMax(o)) && TooFew(|args|, ResolvedMin(o)) && !CustomLowMessage(o.errorMsg)) ==>
      IntendedValidation(args, Some(o), engine) == Validation(args, Some(o), engine)
  {
  }
}
