/**
 * The option handling of `cli.js`: `parseOptions`, `validateOptions`, the
 * error messages, the mapping of options to the record handed to the task
 * list, and the `add` and `update` commands that tie them to the task file.
 */
module Cli {
  import opened Wrappers
  import opened Strings
  import opened TodoList
  import opened TodoStore

  // ---------------------------------------------------------------------------
  // parseOptions

  /**
   * The plain object `parseOptions` fills: its own keys in the order they were
   * first assigned, and the value of each (`undefined` when the argument list
   * ended before it).
   */
  datatype Options = Options(keys: seq<string>, values: map<string, Option<string>>)

  const NoOptions: Options := Options([], map[])

  /** The object invariant: the keys listed are exactly the keys set, each once. */
  ghost predicate Consistent(o: Options)
  {
    && (forall k :: k in o.values <==> k in o.keys)
    && (forall i, j :: 0 <= i < j < |o.keys| ==> o.keys[i] != o.keys[j])
  }

  /** `options[key] = value`: a new key goes last, an existing key keeps its place. */
  function Set(o: Options, key: string, value: Option<string>): Options
  {
    Options(if key in o.values then o.keys else o.keys + [key], o.values[key := value])
  }

  /** `options[key]`, `undefined` for a missing key. */
  function Get(o: Options, key: string): Option<string>
  {
    if key in o.values then o.values[key] else None
  }

  /** `s.replace(/^-+/, '')`: every leading dash removed. */
  function StripDashes(s: string): (r: string)
    ensures |r| <= |s| && r == s[|s| - |r|..]
    ensures r == "" || r[0] != '-'
    decreases |s|
  {
    if |s| > 0 && s[0] == '-' then StripDashes(s[1..]) else s
  }

  /** Everything `StripDashes` removes is a dash: it strips the leading run of dashes and nothing more. */
  lemma {:induction false} StripDashesRemovesDashes(s: string)
    ensures forall i :: 0 <= i < |s| - |StripDashes(s)| ==> s[i] == '-'
    decreases |s|
  {
    if |s| > 0 && s[0] == '-' {
      StripDashesRemovesDashes(s[1..]);
    }
  }

  /** `args[i]`, `undefined` past the end. */
  function ArgAt(args: seq<string>, i: nat): Option<string>
  {
    if i < |args| then Some(args[i]) else None
  }

  /** The argument at even index `i` is an option naming `key`. */
  predicate IsOptionAt(args: seq<string>, i: nat, key: string)
  {
    i < |args| && i % 2 == 0 && StartsWith(args[i], "-") && StripDashes(args[i]) == key
  }

  /** The last option in `args` that names `key` is at index `i`. */
  predicate LastOptionAt(args: seq<string>, i: nat, key: string)
  {
    IsOptionAt(args, i, key) && forall j :: i < j < |args| ==> !IsOptionAt(args, j, key)
  }

  /** One step of the loop of `parseOptions`, on the pair starting at `i`. */
  function ParseStep(args: seq<string>, i: nat, acc: Options): Options
    requires i < |args|
  {
    if StartsWith(args[i], "-") then Set(acc, StripDashes(args[i]), ArgAt(args, i + 1)) else acc
  }

  /** The loop of `parseOptions` from index `i` on, starting with `acc`. */
  function ParseFrom(args: seq<string>, i: nat, acc: Options): Options
    decreases |args| - i
  {
    if i >= |args| then acc else ParseFrom(args, i + 2, ParseStep(args, i, acc))
  }

  /** What `parseOptions(args)` returns. */
  function Parsed(args: seq<string>): Options
  {
    ParseFrom(args, 0, NoOptions)
  }

  /** `parseOptions`: walks the arguments two at a time. */
  method ParseOptions(args: seq<string>) returns (options: Options)
    ensures options == Parsed(args)
  {
    options := NoOptions;
    var i := 0;
    while i < |args|
      invariant i % 2 == 0
      invariant ParseFrom(args, i, options) == Parsed(args)
      decreases |args| - i
    {
      if StartsWith(args[i], "-") {
        var key := StripDashes(args[i]);
        var value := if i + 1 < |args| then Some(args[i + 1]) else None;
        options := Set(options, key, value);
      }
      i := i + 2;
    }
  }

  /** Assigning a key keeps the object consistent. */
  lemma SetConsistent(o: Options, key: string, value: Option<string>)
    requires Consistent(o)
    ensures Consistent(Set(o, key, value))
  {
  }

  /** The loop keeps the object consistent. */
  lemma {:induction false} ParseFromConsistent(args: seq<string>, i: nat, acc: Options)
    requires Consistent(acc)
    ensures Consistent(ParseFrom(args, i, acc))
    decreases |args| - i
  {
    if i < |args| {
      if StartsWith(args[i], "-") {
        SetConsistent(acc, StripDashes(args[i]), ArgAt(args, i + 1));
      }
      ParseFromConsistent(args, i + 2, ParseStep(args, i, acc));
    }
  }

  /** What one step of the loop does to one key. */
  lemma StepLookup(args: seq<string>, i: nat, acc: Options, key: string)
    requires i < |args| && i % 2 == 0
    ensures key in ParseStep(args, i, acc).values <==> key in acc.values || IsOptionAt(args, i, key)
    ensures IsOptionAt(args, i, key) ==> ParseStep(args, i, acc).values[key] == ArgAt(args, i + 1)
    ensures !IsOptionAt(args, i, key) && key in acc.values ==>
      ParseStep(args, i, acc).values[key] == acc.values[key]
  {
  }

  /** Some option at an index from `i` on names `key`. */
  predicate NamedFrom(args: seq<string>, i: nat, key: string)
    decreases |args| - i
  {
    i < |args| && (IsOptionAt(args, i, key) || NamedFrom(args, i + 1, key))
  }

  /** An option at index `j` names `key` from every index up to `j`. */
  lemma {:induction false} NamedFromWitness(args: seq<string>, i: nat, j: nat, key: string)
    requires i <= j && IsOptionAt(args, j, key)
    ensures NamedFrom(args, i, key)
    decreases j - i
  {
    if i < j {
      NamedFromWitness(args, i + 1, j, key);
    }
  }

  /** The index of an option from `i` on that names `key`. */
  lemma {:induction false} NamedFromIndex(args: seq<string>, i: nat, key: string) returns (j: nat)
    requires NamedFrom(args, i, key)
    ensures i <= j < |args| && IsOptionAt(args, j, key)
    decreases |args| - i
  {
    if IsOptionAt(args, i, key) {
      j := i;
    } else {
      j := NamedFromIndex(args, i + 1, key);
    }
  }

  /** An option from an even index `i` on is at `i` itself or from `i + 2` on. */
  lemma NamedFromStep(args: seq<string>, i: nat, key: string)
    requires i < |args| && i % 2 == 0
    ensures NamedFrom(args, i, key) <==> IsOptionAt(args, i, key) || NamedFrom(args, i + 2, key)
  {
    assert (i + 1) % 2 == 1;
    assert !IsOptionAt(args, i + 1, key);
  }

  /** The loop from an even index `i` sets a key exactly when `acc` has it or a later option names it. */
  lemma {:induction false} ParseFromHasKey(args: seq<string>, i: nat, acc: Options, key: string)
    requires i % 2 == 0
    ensures key in ParseFrom(args, i, acc).values <==> key in acc.values || NamedFrom(args, i, key)
    decreases |args| - i
  {
    if i < |args| {
      StepLookup(args, i, acc, key);
      ParseFromHasKey(args, i + 2, ParseStep(args, i, acc), key);
      NamedFromStep(args, i, key);
    }
  }

  /** A key no option from `i` on names keeps the value it had in `acc`. */
  lemma {:induction false} ParseFromKeeps(args: seq<string>, i: nat, acc: Options, key: string)
    requires i % 2 == 0
    requires key in acc.values
    requires forall j :: i <= j < |args| ==> !IsOptionAt(args, j, key)
    ensures key in ParseFrom(args, i, acc).values
    ensures ParseFrom(args, i, acc).values[key] == acc.values[key]
    decreases |args| - i
  {
    if i < |args| {
      StepLookup(args, i, acc, key);
      ParseFromKeeps(args, i + 2, ParseStep(args, i, acc), key);
    }
  }

  /** The loop from an even index `i` gives a key the value after the last option naming it. */
  lemma {:induction false} ParseFromLast(args: seq<string>, i: nat, acc: Options, key: string, j: nat)
    requires i % 2 == 0 && i <= j
    requires LastOptionAt(args, j, key)
    ensures key in ParseFrom(args, i, acc).values
    ensures ParseFrom(args, i, acc).values[key] == ArgAt(args, j + 1)
    decreases |args| - i
  {
    var next := ParseStep(args, i, acc);
    StepLookup(args, i, acc, key);
    if j == i {
      ParseFromKeeps(args, i + 2, next, key);
    } else {
      assert i + 2 <= j;
      ParseFromLast(args, i + 2, next, key, j);
    }
  }

  /**
   * `parseOptions` sees only the even-indexed arguments: a key is set exactly
   * when some even-indexed argument starting with `-` names it once its dashes
   * are stripped, and its value is the argument after the LAST such one
   * (`undefined` at the end of the list): later duplicates overwrite earlier ones.
   */
  lemma ParsedLookup(args: seq<string>, key: string)
    ensures Consistent(Parsed(args))
    ensures key in Parsed(args).values <==> exists j :: 0 <= j < |args| && IsOptionAt(args, j, key)
    ensures forall j :: 0 <= j < |args| && LastOptionAt(args, j, key) ==>
      Parsed(args).values[key] == ArgAt(args, j + 1)
  {
    ParseFromConsistent(args, 0, NoOptions);
    ParseFromHasKey(args, 0, NoOptions, key);
    if NamedFrom(args, 0, key) {
      var j := NamedFromIndex(args, 0, key);
    }
    forall j | 0 <= j < |args| && IsOptionAt(args, j, key)
      ensures NamedFrom(args, 0, key)
    {
      NamedFromWitness(args, 0, j, key);
    }
    forall j | 0 <= j < |args| && LastOptionAt(args, j, key)
      ensures Parsed(args).values[key] == ArgAt(args, j + 1)
    {
      ParseFromLast(args, 0, NoOptions, key, j);
    }
  }

  // ---------------------------------------------------------------------------
  // validateOptions

  /** The options `add` accepts, short and long. */
  const BaseOptions: seq<string> :=
    ["d", "description", "p", "priority", "c", "creation-date", "C", "completion-date",
     "P", "project", "t", "context", "s", "special-tag"]

  /** `validOptions`: `update` accepts `o` and `old-description` as well. */
  function AllowedOptions(isUpdate: bool): seq<string>
  {
    if isUpdate then BaseOptions + ["o"] + ["old-description"] else BaseOptions
  }

  /** The errors `validateOptions` throws. */
  datatype ValidationError =
    | DescriptionMandatory
    | InvalidOption(key: string, allowed: seq<string>)
    | RequiresValue(key: string)
    | BadSpecialTag
    | CreationDateMandatory
    | BadCompletionDate
    | BadCreationDate

  /** JavaScript `a || b` on strings-or-undefined. */
  function Or(a: Option<string>, b: Option<string>): (r: Option<string>)
    ensures Truthy(r) <==> Truthy(a) || Truthy(b)
    ensures Truthy(a) ==> r == a
  {
    if Truthy(a) then a else b
  }

  /** `options.<short> || options['<long>']` */
  function Either(o: Options, short: string, long: string): Option<string>
  {
    Or(Get(o, short), Get(o, long))
  }

  /** `\d` in a JavaScript regular expression without the `u` flag. */
  predicate IsDigit(c: char)
  {
    '0' <= c <= '9'
  }

  /** `/^\d{4}-\d{2}-\d{2}$/.test(s)`: the shape only, no calendar check. */
  predicate DateShape(s: string)
  {
    && |s| == 10
    && IsDigit(s[0]) && IsDigit(s[1]) && IsDigit(s[2]) && IsDigit(s[3])
    && s[4] == '-'
    && IsDigit(s[5]) && IsDigit(s[6])
    && s[7] == '-'
    && IsDigit(s[8]) && IsDigit(s[9])
  }

  /** A special-tag key. */
  predicate IsSpecialTagKey(key: string)
  {
    key == "s" || key == "special-tag"
  }

  /** The checks of the loop over the keys of `options`, for one key: the first that fails. */
  function KeyCheck(o: Options, allowed: seq<string>, key: string): Option<ValidationError>
  {
    if key !in allowed then Some(InvalidOption(key, allowed))
    else if |key| >= 1 && !Truthy(Get(o, key)) then Some(RequiresValue(key))
    else if IsSpecialTagKey(key) && Truthy(Get(o, key)) && ':' !in Get(o, key).value then Some(BadSpecialTag)
    else None
  }

  /** The loop over the keys: the error of the first key that fails. */
  function CheckKeys(o: Options, allowed: seq<string>, keys: seq<string>): Outcome<ValidationError>
    decreases |keys|
  {
    if |keys| == 0 then Pass
    else match KeyCheck(o, allowed, keys[0])
      case Some(e) => Fail(e)
      case None => CheckKeys(o, allowed, keys[1..])
  }

  /** The checks after the loop: a creation date for a completion date, then the shape of both dates. */
  function DateChecks(o: Options): Outcome<ValidationError>
  {
    var completion := Either(o, "C", "completion-date");
    var creation := Either(o, "c", "creation-date");
    if Truthy(completion) && !Truthy(Get(o, "c")) && !Truthy(Get(o, "creation-date")) then Fail(CreationDateMandatory)
    else if Truthy(completion) && !DateShape(completion.value) then Fail(BadCompletionDate)
    else if Truthy(creation) && !DateShape(creation.value) then Fail(BadCreationDate)
    else Pass
  }

  /** `validateOptions` against a given list of valid options. */
  function ValidationWith(o: Options, isUpdate: bool, allowed: seq<string>): Outcome<ValidationError>
  {
    if !isUpdate && !Truthy(Get(o, "d")) && !Truthy(Get(o, "description")) then Fail(DescriptionMandatory)
    else if CheckKeys(o, allowed, o.keys).Fail? then CheckKeys(o, allowed, o.keys)
    else DateChecks(o)
  }

  /** What `validateOptions(options, isUpdate)` throws, or Pass when it returns. */
  function Validation(o: Options, isUpdate: bool): Outcome<ValidationError>
  {
    ValidationWith(o, isUpdate, AllowedOptions(isUpdate))
  }

  /** The loop of `validateOptions` over the keys of `options`: throws for the first key that fails. */
  method CheckOptionKeys(options: Options, validOptions: seq<string>) returns (r: Outcome<ValidationError>)
    ensures r == CheckKeys(options, validOptions, options.keys)
  {
    var i := 0;
    while i < |options.keys|
      invariant 0 <= i <= |options.keys|
      invariant CheckKeys(options, validOptions, options.keys)
             == CheckKeys(options, validOptions, options.keys[i..])
    {
      var key := options.keys[i];
      var value := Get(options, key);
      ghost var check := KeyCheck(options, validOptions, key);
      assert CheckKeys(options, validOptions, options.keys[i..])
          == match check
             case Some(e) => Fail(e)
             case None => CheckKeys(options, validOptions, options.keys[i + 1..]);
      if key !in validOptions {
        assert check == Some(InvalidOption(key, validOptions));
        return Fail(InvalidOption(key, validOptions));
      }
      if |key| == 1 && !Truthy(value) {
        assert check == Some(RequiresValue(key));
        return Fail(RequiresValue(key));
      }
      if |key| > 1 && !Truthy(value) {
        assert check == Some(RequiresValue(key));
        return Fail(RequiresValue(key));
      }
      if (key == "s" || key == "special-tag") && Truthy(value) && ':' !in value.value {
        assert check == Some(BadSpecialTag);
        return Fail(BadSpecialTag);
      }
      assert check == None;
      i := i + 1;
    }
    r := Pass;
  }

  /** `validateOptions`: throws on the first failing check. */
  method ValidateOptions(options: Options, isUpdate: bool) returns (r: Outcome<ValidationError>)
    ensures r == Validation(options, isUpdate)
  {
    var validOptions := BaseOptions;
    if isUpdate {
      validOptions := validOptions + ["o"];
      validOptions := validOptions + ["old-description"];
    }
    assert validOptions == AllowedOptions(isUpdate);
    ghost var spec := ValidationWith(options, isUpdate, validOptions);
    if !isUpdate && !Truthy(Get(options, "d")) && !Truthy(Get(options, "description")) {
      return Fail(DescriptionMandatory);
    }
    r := CheckOptionKeys(options, validOptions);
    if r.Fail? {
      return;
    }
    assert spec == DateChecks(options);
    var completion := Either(options, "C", "completion-date");
    var creation := Either(options, "c", "creation-date");
    if Truthy(completion) && !Truthy(Get(options, "c")) && !Truthy(Get(options, "creation-date")) {
      return Fail(CreationDateMandatory);
    }
    if Truthy(completion) && !DateShape(completion.value) {
      return Fail(BadCompletionDate);
    }
    if Truthy(creation) && !DateShape(creation.value) {
      return Fail(BadCreationDate);
    }
    r := Pass;
  }

  /** A key the loop lets through: allowed, with a value, and a special tag holding `:`. */
  predicate KeyAcceptable(o: Options, allowed: seq<string>, key: string)
  {
    && key in allowed
    && Truthy(Get(o, key))
    && (IsSpecialTagKey(key) ==> ':' in Get(o, key).value)
  }

  /** The date rules: a creation date whenever a completion date, both of the shape YYYY-MM-DD. */
  predicate DatesAcceptable(o: Options)
  {
    var completion := Either(o, "C", "completion-date");
    var creation := Either(o, "c", "creation-date");
    && (Truthy(completion) ==> Truthy(creation))
    && (Truthy(completion) ==> DateShape(completion.value))
    && (Truthy(creation) ==> DateShape(creation.value))
  }

  /** The rulebook of `validateOptions` against a given list of valid options, in no particular order. */
  predicate AcceptableWith(o: Options, isUpdate: bool, allowed: seq<string>)
  {
    && (isUpdate || Truthy(Get(o, "d")) || Truthy(Get(o, "description")))
    && (forall k :: k in o.keys ==> KeyAcceptable(o, allowed, k))
    && DatesAcceptable(o)
  }

  /** The rulebook of `validateOptions`, stated without reference to the order of the checks. */
  predicate Acceptable(o: Options, isUpdate: bool)
  {
    AcceptableWith(o, isUpdate, AllowedOptions(isUpdate))
  }

  /** Every allowed option has a name of at least one character. */
  lemma AllowedNotEmpty(isUpdate: bool)
    ensures forall k :: k in AllowedOptions(isUpdate) ==> |k| >= 1
  {
    var allowed := AllowedOptions(isUpdate);
    forall k | k in allowed ensures |k| >= 1 {
      var i :| 0 <= i < |allowed| && allowed[i] == k;
    }
  }

  /** The date checks pass exactly when the date rules hold. */
  lemma DateChecksPass(o: Options)
    ensures DateChecks(o).Pass? <==> DatesAcceptable(o)
  {
  }

  /** The checks let a key through exactly when it is acceptable. */
  lemma KeyCheckNone(o: Options, allowed: seq<string>, key: string)
    requires key in allowed ==> |key| >= 1
    ensures KeyCheck(o, allowed, key).None? <==> KeyAcceptable(o, allowed, key)
  {
  }

  /** The loop over the keys passes exactly when every key is acceptable. */
  lemma {:induction false} CheckKeysPass(o: Options, allowed: seq<string>, keys: seq<string>)
    requires forall k :: k in allowed ==> |k| >= 1
    ensures CheckKeys(o, allowed, keys).Pass? <==> forall k :: k in keys ==> KeyAcceptable(o, allowed, k)
    decreases |keys|
  {
    if |keys| > 0 {
      CheckKeysPass(o, allowed, keys[1..]);
      KeyCheckNone(o, allowed, keys[0]);
      assert forall k :: k in keys <==> k == keys[0] || k in keys[1..];
    }
  }

  /**
   * `validateOptions` returns without throwing exactly when the options obey
   * its whole rulebook, whatever order their keys come in.
   */
  lemma ValidationIff(o: Options, isUpdate: bool)
    ensures Validation(o, isUpdate).Pass? <==> Acceptable(o, isUpdate)
  {
    AllowedNotEmpty(isUpdate);
    ValidationWithIff(o, isUpdate, AllowedOptions(isUpdate));
  }

  /** `ValidationIff` for any list of valid option names that are not empty. */
  lemma ValidationWithIff(o: Options, isUpdate: bool, allowed: seq<string>)
    requires forall k :: k in allowed ==> |k| >= 1
    ensures ValidationWith(o, isUpdate, allowed).Pass? <==> AcceptableWith(o, isUpdate, allowed)
  {
    CheckKeysPass(o, allowed, o.keys);
    DateChecksPass(o);
  }

  /** Each rule of `validateOptions` on its own rejects the options. */
  lemma ValidationRejects(o: Options, isUpdate: bool, key: string)
    ensures !isUpdate && !Truthy(Get(o, "d")) && !Truthy(Get(o, "description")) ==>
      Validation(o, isUpdate) == Fail(DescriptionMandatory)
    ensures key in o.keys && key !in AllowedOptions(isUpdate) ==> Validation(o, isUpdate).Fail?
    ensures key in o.keys && !Truthy(Get(o, key)) ==> Validation(o, isUpdate).Fail?
    ensures key in o.keys && IsSpecialTagKey(key) && Truthy(Get(o, key)) && ':' !in Get(o, key).value ==>
      Validation(o, isUpdate).Fail?
    ensures Truthy(Either(o, "C", "completion-date")) && !Truthy(Either(o, "c", "creation-date")) ==>
      Validation(o, isUpdate).Fail?
    ensures Truthy(Either(o, "C", "completion-date")) && !DateShape(Either(o, "C", "completion-date").value) ==>
      Validation(o, isUpdate).Fail?
    ensures Truthy(Either(o, "c", "creation-date")) && !DateShape(Either(o, "c", "creation-date").value) ==>
      Validation(o, isUpdate).Fail?
  {
    ValidationIff(o, isUpdate);
  }

  /** `o` and `old-description` are options of `update` only. */
  lemma OldDescriptionOnlyInUpdate(o: Options, key: string)
    requires key == "o" || key == "old-description"
    requires key in o.keys
    ensures Validation(o, false).Fail?
  {
    ValidationIff(o, false);
    assert key !in AllowedOptions(false);
  }

  // ---------------------------------------------------------------------------
  // Error messages

  /** An option as the help shows it: `-x` for one letter, `--name` otherwise. */
  function Dashed(opt: string): string
  {
    if |opt| == 1 then "-" + opt else "--" + opt
  }

  /** `self.indexOf(opt)`: the first index holding `opt`, or |s| when none does. */
  function IndexOf(s: seq<string>, opt: string): (r: nat)
    ensures r <= |s|
    ensures r < |s| ==> s[r] == opt
    ensures forall j :: 0 <= j < r ==> s[j] != opt
    decreases |s|
  {
    if |s| == 0 then 0 else if s[0] == opt then 0 else 1 + IndexOf(s[1..], opt)
  }

  /** `filter((opt, index, self) => self.indexOf(opt) === index || opt.length === 1)` from index `i` on. */
  function FirstOrShort(all: seq<string>, i: nat): seq<string>
    decreases |all| - i
  {
    if i >= |all| then []
    else (if IndexOf(all, all[i]) == i || |all[i]| == 1 then [all[i]] else []) + FirstOrShort(all, i + 1)
  }

  /** The options, dashed, after the filter: `.map(...)` over `FirstOrShort`. */
  function DashedAll(opts: seq<string>): (r: seq<string>)
    ensures |r| == |opts|
    ensures forall k :: 0 <= k < |r| ==> r[k] == Dashed(opts[k])
    decreases |opts|
  {
    if |opts| == 0 then [] else [Dashed(opts[0])] + DashedAll(opts[1..])
  }

  /** The list of valid options in the message for an invalid option. */
  function ValidOptionsString(allowed: seq<string>): string
  {
    Join(DashedAll(FirstOrShort(allowed, 0)), ", ")
  }

  /** No option is listed twice. */
  predicate NoDuplicates(s: seq<string>)
  {
    forall i, j :: 0 <= i < j < |s| ==> s[i] != s[j]
  }

  /** Without duplicates the filter keeps every option, in order. */
  lemma {:induction false} FirstOrShortKeepsAll(all: seq<string>, i: nat)
    requires NoDuplicates(all) && i <= |all|
    ensures FirstOrShort(all, i) == all[i..]
    decreases |all| - i
  {
    if i < |all| {
      FirstOrShortKeepsAll(all, i + 1);
      assert IndexOf(all, all[i]) == i;
      assert all[i..] == [all[i]] + all[i + 1..];
    }
  }

  /** Appending an option not yet listed keeps the list free of duplicates. */
  lemma NoDuplicatesAppend(s: seq<string>, x: string)
    requires NoDuplicates(s) && x !in s
    ensures NoDuplicates(s + [x])
  {
  }

  /** The options of `add` are listed without duplicates. */
  lemma BaseNoDuplicates()
    ensures NoDuplicates(BaseOptions)
  {
  }

  /** The options of both commands are listed without duplicates. */
  lemma AllowedNoDuplicates(isUpdate: bool)
    ensures NoDuplicates(AllowedOptions(isUpdate))
  {
    BaseNoDuplicates();
    if isUpdate {
      assert "o" !in BaseOptions;
      NoDuplicatesAppend(BaseOptions, "o");
      assert "old-description" !in BaseOptions + ["o"];
      NoDuplicatesAppend(BaseOptions + ["o"], "old-description");
    }
  }

  /** The message for an invalid option lists every allowed option once, in order, with its dashes. */
  lemma ValidOptionsListed(isUpdate: bool)
    ensures ValidOptionsString(AllowedOptions(isUpdate)) == Join(DashedAll(AllowedOptions(isUpdate)), ", ")
  {
    AllowedNoDuplicates(isUpdate);
    FirstOrShortKeepsAll(AllowedOptions(isUpdate), 0);
  }

  /** The text of each error `validateOptions` throws. */
  function ValidationMessage(e: ValidationError): string
  {
    match e
    case DescriptionMandatory =>
      "Description is mandatory. Please provide description using \U{1b}[33m--description\U{1b}[0m or \U{1b}[33m-d\U{1b}[0m option."
    case InvalidOption(key, allowed) =>
      "Invalid option '--" + key + "'. Valid options are: " + ValidOptionsString(allowed) + "."
    case RequiresValue(key) =>
      if |key| == 1 then "Option '-" + key + "' requires a value." else "Option '--" + key + "' requires a value."
    case BadSpecialTag => "Invalid special tag format. Please use <tag>:<value>."
    case CreationDateMandatory => "Creation Date is mandatory if Completion Date is present."
    case BadCompletionDate => "Invalid completion date format. Please use YYYY-MM-DD."
    case BadCreationDate => "Invalid creation date format. Please use YYYY-MM-DD."
  }

  // ---------------------------------------------------------------------------
  // From options to the record, and the add and update commands

  /** The record the `add` command hands to `addTodo`: the short option wins over the long one. */
  function AddRecord(o: Options): (t: Todo)
    ensures Truthy(Get(o, "d")) ==> t.description == Get(o, "d")
    ensures !Truthy(Get(o, "d")) ==> t.description == Get(o, "description")
  {
    Todo(
      description := Either(o, "d", "description"),
      priority := Either(o, "p", "priority"),
      creationDate := Either(o, "c", "creation-date"),
      completionDate := Either(o, "C", "completion-date"),
      project := Either(o, "P", "project"),
      context := Either(o, "t", "context"),
      specialTag := Either(o, "s", "special-tag"))
  }

  /** The record the `update` command hands to `updateTodo`: it never carries a completion date. */
  function UpdateRecord(o: Options): (t: Todo)
    ensures t.completionDate == None
    ensures t == AddRecord(o).(completionDate := None)
  {
    Todo(
      description := Either(o, "d", "description"),
      priority := Either(o, "p", "priority"),
      creationDate := Either(o, "c", "creation-date"),
      completionDate := None,
      project := Either(o, "P", "project"),
      context := Either(o, "t", "context"),
      specialTag := Either(o, "s", "special-tag"))
  }

  /** The fragment `update` looks for: here the LONG option wins over `-o`. */
  function OldDescription(o: Options): (r: Option<string>)
    ensures Truthy(Get(o, "old-description")) ==> r == Get(o, "old-description")
    ensures !Truthy(Get(o, "old-description")) ==> r == Get(o, "o")
  {
    Or(Get(o, "old-description"), Get(o, "o"))
  }

  /** A value the record takes comes from an option whose key is present. */
  lemma EitherFromKey(o: Options, short: string, long: string)
    requires Consistent(o)
    requires Truthy(Either(o, short, long))
    ensures Truthy(Get(o, short)) ==> short in o.keys && Either(o, short, long) == Get(o, short)
    ensures !Truthy(Get(o, short)) ==> long in o.keys && Either(o, short, long) == Get(o, long)
  {
  }

  /**
   * A record built from options that passed validation for `add` has a
   * description, a creation date whenever it has a completion date, dates of
   * the shape YYYY-MM-DD, and a special tag holding `:`.
   */
  lemma ValidatedAddRecord(o: Options)
    requires Consistent(o)
    requires Validation(o, false).Pass?
    ensures Truthy(AddRecord(o).description)
    ensures Truthy(AddRecord(o).completionDate) ==> Truthy(AddRecord(o).creationDate)
    ensures Truthy(AddRecord(o).completionDate) ==> DateShape(AddRecord(o).completionDate.value)
    ensures Truthy(AddRecord(o).creationDate) ==> DateShape(AddRecord(o).creationDate.value)
    ensures Truthy(AddRecord(o).specialTag) ==> ':' in AddRecord(o).specialTag.value
  {
    ValidationIff(o, false);
    var tag := Either(o, "s", "special-tag");
    if Truthy(tag) {
      EitherFromKey(o, "s", "special-tag");
      if Truthy(Get(o, "s")) {
        assert KeyAcceptable(o, AllowedOptions(false), "s");
      } else {
        assert KeyAcceptable(o, AllowedOptions(false), "special-tag");
      }
    }
  }

  /** The options of an `update` that gives both dates. */
  const DatedUpdate: Options :=
    Options(["C", "c"], map["C" := Some("2024-02-01"), "c" := Some("2024-01-01")])

  /** An allowed key with a value, other than a special tag, passes the checks of the loop. */
  lemma KeyCheckPasses(o: Options, allowed: seq<string>, key: string)
    requires key in allowed && Truthy(Get(o, key)) && !IsSpecialTagKey(key)
    ensures KeyCheck(o, allowed, key) == None
  {
  }

  /** The keys of that `update` pass the loop over the keys. */
  lemma DatedUpdateKeys()
    ensures CheckKeys(DatedUpdate, AllowedOptions(true), DatedUpdate.keys) == Pass
  {
    var o, allowed := DatedUpdate, AllowedOptions(true);
    assert allowed[6] == "C" && allowed[4] == "c";
    assert Get(o, "C") == Some("2024-02-01") && Get(o, "c") == Some("2024-01-01");
    KeyCheckPasses(o, allowed, "C");
    KeyCheckPasses(o, allowed, "c");
    assert o.keys[1..] == ["c"] && o.keys[1..][1..] == [];
  }

  /** The dates of that `update` pass the date checks. */
  lemma DatedUpdateDates()
    ensures DateChecks(DatedUpdate) == Pass
  {
    var o := DatedUpdate;
    assert Either(o, "C", "completion-date") == Some("2024-02-01");
    assert Either(o, "c", "creation-date") == Some("2024-01-01");
    assert DateShape("2024-02-01") && DateShape("2024-01-01");
  }

  /** Validation for `update` accepts a completion date that the update record then drops. */
  lemma UpdateDropsCompletionDate()
    ensures Validation(DatedUpdate, true).Pass? && Truthy(Get(DatedUpdate, "C"))
    ensures UpdateRecord(DatedUpdate).completionDate == None
  {
    DatedUpdateKeys();
    DatedUpdateDates();
    assert Get(DatedUpdate, "C") == Some("2024-02-01");
  }

  /** Why a command stopped before touching the task file. */
  datatype CommandError = MissingOldDescription | Invalid(error: ValidationError)

  /** The message `update` prints when no old description is given. */
  const MissingOldDescriptionMessage: string :=
    "Please provide the old description using \U{1b}[33m--old-description\U{1b}[0m or \U{1b}[33m-o\U{1b}[0m."

  /** The `add` branch of `main`: parse, validate, then append the line built from the record. */
  method RunAdd(store: TodoFile, args: seq<string>) returns (r: Outcome<CommandError>)
    modifies store
    ensures r.Pass? <==> Acceptable(Parsed(args), false)
    ensures r.Fail? ==>
      Validation(Parsed(args), false).Fail? && r == Fail(Invalid(Validation(Parsed(args), false).error))
    ensures r.Fail? ==> store.text == old(store.text)
    ensures r.Pass? ==> store.text == Some(WriteText(old(store.Todos()) + [AddLine(AddRecord(Parsed(args)))]))
  {
    var options := ParseOptions(args);
    var v := ValidateOptions(options, false);
    ValidationIff(options, false);
    if v.Fail? {
      return Fail(Invalid(v.error));
    }
    store.AddTodo(AddRecord(options));
    r := Pass;
  }

  /** The `update` branch of `main`: the old description first, then validation, then the rewrite. */
  method RunUpdate(store: TodoFile, args: seq<string>) returns (r: Outcome<CommandError>)
    modifies store
    ensures !Truthy(OldDescription(Parsed(args))) ==> r == Fail(MissingOldDescription)
    ensures Truthy(OldDescription(Parsed(args))) ==> (r.Pass? <==> Acceptable(Parsed(args), true))
    ensures r.Fail? ==> store.text == old(store.text)
    ensures r.Pass? ==>
      store.text == Some(WriteText(UpdateTodos(old(store.Todos()), OldDescription(Parsed(args)).value,
                                               UpdateRecord(Parsed(args)))))
  {
    var options := ParseOptions(args);
    var oldDescription := OldDescription(options);
    if !Truthy(oldDescription) {
      return Fail(MissingOldDescription);
    }
    var v := ValidateOptions(options, true);
    ValidationIff(options, true);
    if v.Fail? {
      return Fail(Invalid(v.error));
    }
    store.UpdateTodo(oldDescription.value, UpdateRecord(options));
    r := Pass;
  }
}
