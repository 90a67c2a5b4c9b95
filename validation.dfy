/**
 * Form validation: a Validator runs, for each field, its list of validators on the
 * request data and collects error messages; Numeric is the one validator of the core,
 * and its error text comes from a template with `{{ key }}` placeholders.
 */
module Validation {
  import opened Wrappers
  import opened PhpArrays
  import opened Strings
  import opened Values
  import opened HttpRequest

  // ---------------------------------------------------------------- error templates

  /** The placeholder a context key becomes. */
  function Placeholder(k: Key): string
  {
    "{{ " + KeyString(k) + " }}"
  }

  /** How a context value is written into a message. */
  function Stringify(v: Value, bi: Builtins): string
  {
    if IsObject(v) then
      (if v.Instance? && v.obj.toStr.Some? then v.obj.toStr.value else ClassName(v))
    else if v.Arr? then bi.jsonEncode(v)
    else CastScalar(v)
  }

  /** The replacement pairs error() builds from a context, in the context's order. */
  function Replacements(context: seq<(Key, Value)>, bi: Builtins): seq<(string, string)>
  {
    if context == [] then []
    else
      var last := context[|context| - 1];
      Put(Replacements(context[..|context| - 1], bi), Placeholder(last.0), Stringify(last.1, bi))
  }

  const DEFAULT_NUMERIC_MESSAGE := "This value should be of type {{ type }}."

  /** The context Numeric passes: 'value' by name, then 'type' and 'numeric' as list elements 0 and 1. */
  function NumericContext(value: Value): seq<(Key, Value)>
  {
    [(StrKey("value"), value), (IntKey(0), Str("type")), (IntKey(1), Str("numeric"))]
  }

  /** is_numeric, for the values modelled: integers, and strings as the builtin decides. */
  predicate IsNumeric(v: Value, bi: Builtins)
  {
    v.Int? || (v.Str? && bi.isNumericString(v.s))
  }

  /** The replacement pairs of the Numeric context: every key starts with "{{ ". */
  function NumericPairs(shown: string): seq<(string, string)>
  {
    [("{{ value }}", shown), ("{{ 0 }}", "type"), ("{{ 1 }}", "numeric")]
  }

  /** The error Numeric sets for `value` with template `message`, or None when it accepts the value. */
  function Rejection(message: string, bi: Builtins, value: Value): Option<string>
  {
    if value == Null || IsNumeric(value, bi) then None
    else Some(Strtr(message, NumericPairs(Stringify(value, bi))))
  }

  class Numeric {
    var message: string
    /** The last error; None while the property is uninitialised. */
    var error: Option<string>
    const bi: Builtins

    constructor(bi: Builtins)
      ensures message == DEFAULT_NUMERIC_MESSAGE && error == None && this.bi == bi
    {
      message := DEFAULT_NUMERIC_MESSAGE;
      error := None;
      this.bi := bi;
    }

    function GetError(): (r: Result<string>)
      reads this
      ensures r.Ok? <==> error.Some?
      ensures r.Ok? ==> r.value == error.value
      ensures r.Err? ==> r.error == UninitializedProperty("error")
    {
      match error
      case Some(e) => Ok(e)
      case None => Err(UninitializedProperty("error"))
    }

    /** error(): every placeholder of the context is replaced in `message`. */
    method Error(message: string, context: seq<(Key, Value)>)
      modifies this
      ensures error == Some(Strtr(message, Replacements(context, bi)))
      ensures this.message == old(this.message)
    {
      var replace: seq<(string, string)> := [];
      var i := 0;
      while i < |context|
        invariant 0 <= i <= |context|
        invariant replace == Replacements(context[..i], bi)
      {
        assert context[..i + 1][..i] == context[..i];
        var (key, value) := context[i];
        replace := Put(replace, Placeholder(key), Stringify(value, bi));
        i := i + 1;
      }
      assert context[..|context|] == context;
      error := Some(Strtr(message, replace));
    }

    /** null and numeric values pass; anything else fails and sets the error. */
    method Validate(value: Value) returns (ok: bool)
      modifies this
      ensures message == old(message)
      ensures ok <==> Rejection(message, bi, value).None?
      ensures ok ==> error == old(error)
      ensures !ok ==> error == Rejection(message, bi, value)
    {
      if value == Null {
        return true;
      }
      if !IsNumeric(value, bi) {
        Error(message, NumericContext(value));
        NumericPlaceholders(value, bi);
        return false;
      }
      return true;
    }

    /** message(): a new template; the same validator is returned. */
    method Message(message: string) returns (self: Numeric)
      modifies this
      ensures this.message == message && error == old(error) && self == this
    {
      this.message := message;
      self := this;
    }
  }

  // ---------------------------------------------------------------- template lemmas

  /** One more context entry whose placeholder is new appends one pair. */
  lemma ReplacementsSnocFresh(c: seq<(Key, Value)>, bi: Builtins, n: nat, before: seq<(string, string)>)
    requires 0 < n <= |c|
    requires Replacements(c[..n - 1], bi) == before
    requires !HasKey(before, Placeholder(c[n - 1].0))
    ensures Replacements(c[..n], bi) == before + [(Placeholder(c[n - 1].0), Stringify(c[n - 1].1, bi))]
  {
    assert c[..n][..n - 1] == c[..n - 1];
    PutKeys(before, Placeholder(c[n - 1].0), Stringify(c[n - 1].1, bi));
  }

  /** A context of three entries with distinct placeholders gives one pair per entry, in order. */
  lemma ReplacementsOfThree(c: seq<(Key, Value)>, bi: Builtins)
    requires |c| == 3
    requires Placeholder(c[0].0) != Placeholder(c[1].0)
    requires Placeholder(c[0].0) != Placeholder(c[2].0) && Placeholder(c[1].0) != Placeholder(c[2].0)
    ensures Replacements(c, bi) ==
      [(Placeholder(c[0].0), Stringify(c[0].1, bi)), (Placeholder(c[1].0), Stringify(c[1].1, bi)),
       (Placeholder(c[2].0), Stringify(c[2].1, bi))]
  {
    var p0 := (Placeholder(c[0].0), Stringify(c[0].1, bi));
    var p1 := (Placeholder(c[1].0), Stringify(c[1].1, bi));
    var p2 := (Placeholder(c[2].0), Stringify(c[2].1, bi));
    assert c[..0] == [];
    ReplacementsSnocFresh(c, bi, 1, []);
    ReplacementsSnocFresh(c, bi, 2, [p0]);
    ReplacementsSnocFresh(c, bi, 3, [p0, p1]);
    assert c[..3] == c;
  }

  /** 'type' and 'numeric' are list elements: the placeholders are {{ value }}, {{ 0 }} and {{ 1 }}. */
  lemma NumericPlaceholders(value: Value, bi: Builtins)
    ensures Replacements(NumericContext(value), bi) == NumericPairs(Stringify(value, bi))
  {
    var c := NumericContext(value);
    assert Placeholder(StrKey("value")) == "{{ value }}";
    assert IntToString(0) == "0" && IntToString(1) == "1";
    assert Placeholder(IntKey(0)) == "{{ 0 }}";
    assert Placeholder(IntKey(1)) == "{{ 1 }}";
    assert "{{ value }}" != "{{ 0 }}" by { assert "{{ value }}"[3] != "{{ 0 }}"[3]; }
    assert "{{ value }}" != "{{ 1 }}" by { assert "{{ value }}"[3] != "{{ 1 }}"[3]; }
    assert "{{ 0 }}" != "{{ 1 }}" by { assert "{{ 0 }}"[3] != "{{ 1 }}"[3]; }
    ReplacementsOfThree(c, bi);
  }

  /** A string that differs from `t` at a position both have is not a prefix of `t`. */
  lemma DifferAt(k: string, t: string, i: nat)
    requires i < |k| && i < |t| && k[i] != t[i]
    ensures !(k <= t)
  {
  }

  /** Every Numeric key is "{{ " followed by 'v', '0' or '1'. */
  lemma KeyShape(shown: string, j: nat)
    requires j < 3
    ensures |NumericPairs(shown)[j].0| > 3
    ensures NumericPairs(shown)[j].0[0] == '{' && NumericPairs(shown)[j].0[1] == '{'
    ensures NumericPairs(shown)[j].0[3] == ['v', '0', '1'][j]
  {
    var k := NumericPairs(shown)[j].0;
    if j == 0 {
      assert k == "{{ value }}";
    } else if j == 1 {
      assert k == "{{ 0 }}";
    } else {
      assert k == "{{ 1 }}";
    }
  }

  /** Every key is "{{ " followed by 'v', '0' or '1', as Numeric's keys are. */
  predicate NumericKeys(pairs: seq<(string, string)>)
  {
    forall j :: 0 <= j < |pairs| ==>
      |pairs[j].0| > 3 && pairs[j].0[0] == '{' && pairs[j].0[1] == '{' &&
      (pairs[j].0[3] == 'v' || pairs[j].0[3] == '0' || pairs[j].0[3] == '1')
  }

  lemma KeysOfNumeric(shown: string)
    ensures NumericKeys(NumericPairs(shown))
  {
    forall j | 0 <= j < |NumericPairs(shown)| {
      KeyShape(shown, j);
    }
  }

  /** Text without '{' is copied unchanged by pairs of that shape. */
  lemma BraceFreeIsPlain(a: string, pairs: seq<(string, string)>)
    requires NumericKeys(pairs)
    requires forall i :: 0 <= i < |a| ==> a[i] != '{'
    ensures NoKeyStarts(a, pairs)
  {
  }

  /** Text without '{' is kept as it is. */
  lemma TypeTailKept(tail: string, pairs: seq<(string, string)>)
    requires NumericKeys(pairs)
    requires forall i :: 0 <= i < |tail| ==> tail[i] != '{'
    ensures Strtr(tail, pairs) == tail
  {
    BraceFreeIsPlain(tail, pairs);
    StrtrPlain(tail, [], pairs);
    assert tail + [] == tail;
  }

  /** No key of that shape is a prefix of a text that differs from all of them at position `i`. */
  lemma NoKeyAt(t: string, i: nat, pairs: seq<(string, string)>)
    requires NumericKeys(pairs)
    requires i < 4 && i < |t| && i != 2
    requires i < 2 ==> t[i] != '{'
    requires i == 3 ==> t[i] != 'v' && t[i] != '0' && t[i] != '1'
    ensures forall j :: 0 <= j < |pairs| && pairs[j].0 != [] ==> !(pairs[j].0 <= t)
  {
    forall j | 0 <= j < |pairs| && pairs[j].0 != [] ensures !(pairs[j].0 <= t) {
      DifferAt(pairs[j].0, t, i);
    }
  }

  /** Where one '{' is followed by brace-free text no key starts: every key has '{' second. */
  lemma InnerBraceKept(tail: string, pairs: seq<(string, string)>)
    requires NumericKeys(pairs)
    requires tail != [] && forall i :: 0 <= i < |tail| ==> tail[i] != '{'
    ensures Strtr(['{'] + tail, pairs) == ['{'] + tail
  {
    NoKeyAt(['{'] + tail, 1, pairs);
    TypeTailKept(tail, pairs);
    StrtrNoKeyHere('{', tail, pairs);
  }

  /**
   * At "{{" followed by brace-free text whose second character is not 'v', '0' or '1' (as in
   * "{{ type }}.") no key starts: each key has one of those at position 3.
   */
  lemma TypePlaceholderKept(tail: string, pairs: seq<(string, string)>)
    requires NumericKeys(pairs)
    requires |tail| > 1 && tail[1] != 'v' && tail[1] != '0' && tail[1] != '1'
    requires forall i :: 0 <= i < |tail| ==> tail[i] != '{'
    ensures Strtr(['{', '{'] + tail, pairs) == ['{', '{'] + tail
  {
    var t1 := ['{'] + tail;
    assert ['{', '{'] + tail == ['{'] + t1;
    NoKeyAt(['{'] + t1, 3, pairs);
    InnerBraceKept(tail, pairs);
    StrtrNoKeyHere('{', t1, pairs);
  }

  /**
   * With the default template the error text is the template itself: `{{ type }}` is not
   * one of the placeholders Numeric supplies.
   */
  lemma DefaultMessageIsLiteral(value: Value, bi: Builtins)
    ensures Rejection(DEFAULT_NUMERIC_MESSAGE, bi, value).Some? ==>
      Rejection(DEFAULT_NUMERIC_MESSAGE, bi, value).value == DEFAULT_NUMERIC_MESSAGE
  {
    NumericPlaceholders(value, bi);
    KeysOfNumeric(Stringify(value, bi));
    DefaultKept(DEFAULT_NUMERIC_MESSAGE, NumericPairs(Stringify(value, bi)));
  }

  lemma DefaultKept(m: string, pairs: seq<(string, string)>)
    requires NumericKeys(pairs)
    requires m == DEFAULT_NUMERIC_MESSAGE
    ensures Strtr(m, pairs) == m
  {
    var a := "This value should be of type ";
    var tail := " type }}.";
    var b := ['{', '{'] + tail;
    DefaultParts(a, tail);
    BraceFreeIsPlain(a, pairs);
    StrtrPlain(a, b, pairs);
    TypePlaceholderKept(tail, pairs);
  }

  /** The default template is a brace-free prefix followed by "{{ type }}.". */
  lemma DefaultParts(a: string, tail: string)
    requires a == "This value should be of type " && tail == " type }}."
    ensures a + (['{', '{'] + tail) == DEFAULT_NUMERIC_MESSAGE
    ensures forall i :: 0 <= i < |a| ==> a[i] != '{'
    ensures |tail| > 1 && tail[1] == 't'
    ensures forall i :: 0 <= i < |tail| ==> tail[i] != '{'
  {
  }

  lemma ValueIsShown(value: Value, bi: Builtins)
    requires value != Null && !IsNumeric(value, bi)
    ensures Rejection("{{ value }}", bi, value) == Some(Stringify(value, bi))
  {
    NumericPlaceholders(value, bi);
    ValueKeyReplaced(Stringify(value, bi), "{{ value }}");
  }

  lemma ValueKeyReplaced(shown: string, k: string)
    requires k == "{{ value }}"
    ensures Strtr(k, NumericPairs(shown)) == shown
  {
    var pairs := NumericPairs(shown);
    assert DistinctKeys(pairs) by {
      forall i, j | 0 <= i < j < 3 ensures pairs[i].0 != pairs[j].0 {
        KeyShape(shown, i);
        KeyShape(shown, j);
        assert pairs[i].0[3] != pairs[j].0[3];
      }
    }
    assert k + [] == k;
    forall i | 0 <= i < |pairs| && pairs[i].0 <= k + [] ensures |pairs[i].0| <= |k| {
    }
    StrtrKey(k, [], pairs, 0);
  }

  // ---------------------------------------------------------------- Validator

  /** What the constructor may be given for one field: one candidate, or a list of them. */
  datatype Candidate = Check(n: Numeric) | Other(v: Value)
  datatype FieldEntry = One(c: Candidate) | Many(cs: seq<Candidate>)

  /** A PHP array given for a field is always the list itself, never a single candidate. */
  type FieldSpec = f: FieldEntry | !(f.One? && f.c.Other? && f.c.v.Arr?) witness Many([])

  function Candidates(f: FieldSpec): seq<Candidate>
  {
    match f
    case One(c) => [c]
    case Many(cs) => cs
  }

  /** A PHP array of lists, keyed by field. */
  type Table<T> = seq<(string, seq<T>)>

  function ListAt<T>(m: Table<T>, k: string): seq<T>
  {
    match Get(m, k)
    case Some(l) => l
    case None => []
  }

  /** `$m[$k][] = $x` */
  function Push<T>(m: Table<T>, k: string, x: T): (r: Table<T>)
  {
    Put(m, k, ListAt(m, k) + [x])
  }

  /** Pushes each element in order. */
  function PushAll<T>(m: Table<T>, k: string, xs: seq<T>): Table<T>
  {
    if xs == [] then m else Push(PushAll(m, k, xs[..|xs| - 1]), k, xs[|xs| - 1])
  }

  function ValidatorMessage(field: string, v: Value): string
  {
    field + " validator must be an instance of ValidatorInterface, \"" + Describe(v) + "\" given."
  }

  /** addValidator on the validators table (null until the first push). */
  function AddAll(m: Option<Table<Numeric>>, field: string, cs: seq<Candidate>): Result<Option<Table<Numeric>>>
    decreases |cs|
  {
    if cs == [] then Ok(m)
    else
      match cs[0]
      case Other(v) => Err(InvalidArgumentException(ValidatorMessage(field, v)))
      case Check(n) => AddAll(Some(Push(if m.Some? then m.value else [], field, n)), field, cs[1..])
  }

  /** The constructor's loop over the fields. */
  function Register(m: Option<Table<Numeric>>, fvs: seq<(string, FieldSpec)>): Result<Option<Table<Numeric>>>
    decreases |fvs|
  {
    if fvs == [] then Ok(m)
    else
      match AddAll(m, fvs[0].0, Candidates(fvs[0].1))
      case Err(e) => Err(e)
      case Ok(m') => Register(m', fvs[1..])
  }

  /** A validator as the validation run sees it: its template, and the builtins it consults. */
  datatype Rule = Rule(message: string, bi: Builtins)

  /** `is_string($v) && empty(trim($v))` makes null: empty covers '' and '0'. */
  function Blank(v: Value): Value
  {
    if v.Str? && (Trim(v.s) == "" || Trim(v.s) == "0") then Null else v
  }

  /** isset($data[$field]) */
  predicate IsSetIn(data: Entries, field: string)
  {
    Get(data, field).Some? && Get(data, field).value != Null
  }

  /** The messages of the failing rules for one value, in rule order. */
  function Failures(rules: seq<Rule>, value: Value): seq<string>
  {
    if rules == [] then [] else Failures(rules[..|rules| - 1], value) + FailureOf(rules[|rules| - 1], value)
  }

  /** The message one rule records for a value: none, or its error text. */
  function FailureOf(rule: Rule, value: Value): seq<string>
  {
    match Rejection(rule.message, rule.bi, value)
    case Some(e) => [e]
    case None => []
  }

  /** One field: fill in null when it is not set, then record its rules' failures. */
  function ValidateField(data: Entries, errors: Table<string>, field: string, rules: seq<Rule>): (Entries, Table<string>)
  {
    var data' := if IsSetIn(data, field) then data else Put(data, field, Null);
    var value := if IsSetIn(data, field) then Get(data, field).value else Null;
    (data', PushAll(errors, field, Failures(rules, value)))
  }

  function ValidateFields(data: Entries, errors: Table<string>, vs: seq<(string, seq<Rule>)>): (Entries, Table<string>)
  {
    if vs == [] then (data, errors)
    else
      var (d, e) := ValidateFields(data, errors, vs[..|vs| - 1]);
      ValidateField(d, e, vs[|vs| - 1].0, vs[|vs| - 1].1)
  }

  /** The rules of some validators, as they are now. */
  ghost function Rules(ns: seq<Numeric>): (rs: seq<Rule>)
    reads set n | n in ns
    ensures |rs| == |ns| && forall j :: 0 <= j < |ns| ==> rs[j] == Rule(ns[j].message, ns[j].bi)
  {
    if ns == [] then [] else [Rule(ns[0].message, ns[0].bi)] + Rules(ns[1..])
  }

  ghost function RuleTable(vs: Table<Numeric>): (t: seq<(string, seq<Rule>)>)
    reads set i, n | 0 <= i < |vs| && n in vs[i].1 :: n
    ensures |t| == |vs| && forall i :: 0 <= i < |vs| ==> t[i] == (vs[i].0, Rules(vs[i].1))
  {
    if vs == [] then [] else [(vs[0].0, Rules(vs[0].1))] + RuleTable(vs[1..])
  }

  /** The rule table has one entry per field when the validators table does. */
  lemma RuleTableDistinct(vs: Table<Numeric>)
    requires DistinctKeys(vs)
    ensures DistinctKeys(RuleTable(vs))
  {
  }

  class Validator {
    /** Field to validators; null until a validator is added. */
    var validators: Option<Table<Numeric>>
    var errors: Table<string>
    var data: Entries

    constructor()
      ensures validators == None && errors == [] && data == []
    {
      validators := None;
      errors := [];
      data := [];
    }

    function Table(): Table<Numeric>
      reads this`validators
    {
      if validators.Some? then validators.value else []
    }

    /** The validator objects a validation run may touch. */
    function Checkers(): set<Numeric>
      reads this`validators
    {
      set i, n | 0 <= i < |Table()| && n in Table()[i].1 :: n
    }

    method AddValidator(field: string, cs: seq<Candidate>) returns (r: Outcome)
      modifies this
      ensures AddAll(old(validators), field, cs).Ok? ==> r == Pass && validators == AddAll(old(validators), field, cs).value
      ensures AddAll(old(validators), field, cs).Err? ==> r == Fail(AddAll(old(validators), field, cs).error)
      ensures errors == old(errors) && data == old(data)
    {
      ghost var m0 := validators;
      var i := 0;
      while i < |cs|
        invariant 0 <= i <= |cs|
        invariant AddAll(m0, field, cs) == AddAll(validators, field, cs[i..])
        invariant errors == old(errors) && data == old(data)
      {
        assert cs[i..][0] == cs[i] && cs[i..][1..] == cs[i + 1..];
        match cs[i]
        case Other(v) =>
          return Fail(InvalidArgumentException(ValidatorMessage(field, v)));
        case Check(n) =>
          validators := Some(Push(Table(), field, n));
        i := i + 1;
      }
      return Pass;
    }

    function GetErrors(): (r: Table<string>)
      reads this
      ensures r == errors
    {
      errors
    }

    function GetData(): (r: Entries)
      reads this
      ensures r == data
    {
      data
    }

    /** Runs every field's validators on the request body merged with the files. */
    method Validate(request: Request) returns (ok: bool)
      modifies this, Checkers()
      ensures validators == old(validators)
      ensures (data, errors) == ValidateFields(ValidationData(request.request, request.files), old(errors), old(RuleTable(Table())))
      ensures ok <==> errors == []
      ensures forall k, j :: 0 <= k < |Table()| && 0 <= j < |Table()[k].1| ==> Settled(Table()[k].1[j], errors)
    {
      ghost var rules := RuleTable(Table());
      data := ValidationData(request.request, request.files);
      ghost var d0 := data;
      var vs := Table();
      var i := 0;
      while i < |vs|
        invariant 0 <= i <= |vs|
        invariant validators == old(validators)
        invariant (data, errors) == ValidateFields(d0, old(errors), rules[..i])
        invariant forall k, j :: 0 <= k < |vs| && 0 <= j < |vs[k].1| ==> Settled(vs[k].1[j], errors)
      {
        ghost var data1, errors1 := data, errors;
        ValidateOne(vs[i].0, vs[i].1, rules[i].1);
        ValidateFieldsSnoc(d0, old(errors), rules, i);
        assert (data, errors) == ValidateField(data1, errors1, rules[i].0, rules[i].1);
        i := i + 1;
      }
      assert rules[..|vs|] == rules;
      ok := errors == [];
    }

    /**
     * Since the run started, validator `n` kept its template, and its error is either the one
     * it had or a message recorded in `errors`.
     */
    twostate predicate Settled(n: Numeric, new errors: Table<string>)
      reads n
    {
      n.message == old(n.message) && (n.error == old(n.error) || (n.error.Some? && Recorded(n.error.value, errors)))
    }

    /** One field: null when it is not set, then its validators in order. */
    method ValidateOne(field: string, checks: seq<Numeric>, ghost rules: seq<Rule>)
      requires |rules| == |checks|
      requires forall j :: 0 <= j < |checks| ==> rules[j] == Rule(checks[j].message, checks[j].bi)
      modifies this, set n | n in checks
      ensures validators == old(validators)
      ensures forall n :: n in checks ==> n.message == old(n.message)
      ensures (data, errors) == ValidateField(old(data), old(errors), field, rules)
      ensures forall m :: m in checks ==> m.error == old(m.error) || (m.error.Some? && Recorded(m.error.value, errors))
      ensures forall e :: Recorded(e, old(errors)) ==> Recorded(e, errors)
    {
      var value := Null;
      if IsSetIn(data, field) {
        value := PhpArrays.Get(data, field).value;
      } else {
        data := Put(data, field, Null);
      }
      RunChecks(field, checks, value, rules);
      PushAllList(old(errors), field, Failures(rules, value), field);
      forall m | m in checks && m.error != old(m.error) ensures Recorded(m.error.value, errors) {
        RecordedAt(m.error.value, errors, field);
      }
      forall e | Recorded(e, old(errors)) ensures Recorded(e, errors) {
        ErrorKept(old(data), old(errors), field, rules, e);
      }
    }

    /** One validator on one value: its error is appended when it fails. */
    method RunCheck(field: string, n: Numeric, value: Value, ghost rule: Rule)
      requires rule == Rule(n.message, n.bi)
      modifies this, n
      ensures validators == old(validators) && data == old(data) && n.message == old(n.message)
      ensures errors == PushAll(old(errors), field, FailureOf(rule, value))
      ensures FailureOf(rule, value) == [] ==> n.error == old(n.error)
      ensures FailureOf(rule, value) != [] ==> n.error.Some? && FailureOf(rule, value) == [n.error.value]
    {
      var passed := n.Validate(value);
      if !passed {
        errors := Push(errors, field, n.error.value);
        assert [n.error.value][..0] == [];
      }
    }

    /** The inner loop of validate: each failing validator appends its error under `field`. */
    method RunChecks(field: string, checks: seq<Numeric>, value: Value, ghost rules: seq<Rule>)
      requires |rules| == |checks|
      requires forall j :: 0 <= j < |checks| ==> rules[j] == Rule(checks[j].message, checks[j].bi)
      modifies this, set n | n in checks
      ensures validators == old(validators) && data == old(data)
      ensures forall n :: n in checks ==> n.message == old(n.message)
      ensures errors == PushAll(old(errors), field, Failures(rules, value))
      ensures forall m :: m in checks ==> m.error == old(m.error) || (m.error.Some? && m.error.value in Failures(rules, value))
    {
      var j := 0;
      ghost var failed: seq<string> := [];
      while j < |checks|
        invariant 0 <= j <= |checks|
        invariant validators == old(validators) && data == old(data)
        invariant forall k :: 0 <= k < |checks| ==> checks[k].message == rules[k].message
        invariant forall k :: 0 <= k < |checks| ==> Noted(checks[k], failed)
        invariant failed == Failures(rules[..j], value)
        invariant errors == PushAll(old(errors), field, failed)
      {
        FailuresStep(rules, j, value);
        PushAllConcat(old(errors), field, failed, FailureOf(rules[j], value));
        label Before:
        RunCheck(field, checks[j], value, rules[j]);
        forall k | 0 <= k < |checks| ensures Noted(checks[k], failed + FailureOf(rules[j], value)) {
          if checks[k] != checks[j] {
            assert checks[k].error == old@Before(checks[k].error);
          }
        }
        failed := failed + FailureOf(rules[j], value);
        j := j + 1;
      }
      assert rules[..|checks|] == rules;
    }

    /** Since the call started, validator `n` kept its error or took one of `failed`. */
    twostate predicate Noted(n: Numeric, new failed: seq<string>)
      reads n
    {
      n.error == old(n.error) || (n.error.Some? && n.error.value in failed)
    }
  }

  /** Every message of the error table, field after field. */
  function Messages(errors: Table<string>): seq<string>
  {
    if errors == [] then [] else errors[0].1 + Messages(errors[1..])
  }

  /** `e` is one of the messages recorded in the error table, under some field. */
  predicate Recorded(e: string, errors: Table<string>)
  {
    e in Messages(errors)
  }

  lemma {:induction false} MessagesIndex(errors: Table<string>, e: string)
    requires Recorded(e, errors)
    ensures exists j :: 0 <= j < |errors| && e in errors[j].1
  {
    if e !in errors[0].1 {
      MessagesIndex(errors[1..], e);
      var j :| 0 <= j < |errors[1..]| && e in errors[1..][j].1;
      assert e in errors[j + 1].1;
    }
  }

  lemma {:induction false} MessagesHas(errors: Table<string>, j: nat, e: string)
    requires j < |errors| && e in errors[j].1
    ensures Recorded(e, errors)
  {
    if j > 0 {
      MessagesHas(errors[1..], j - 1, e);
    }
  }

  lemma RecordedAt(e: string, errors: Table<string>, f: string)
    requires e in ListAt(errors, f)
    ensures Recorded(e, errors)
  {
    var j := IndexOf(errors, f).value;
    MessagesHas(errors, j, e);
  }

  /** Appending to one field's list keeps every recorded message. */
  lemma RecordedPush(errors: Table<string>, field: string, x: string, e: string)
    requires Recorded(e, errors)
    ensures Recorded(e, Push(errors, field, x))
  {
    MessagesIndex(errors, e);
    var j :| 0 <= j < |errors| && e in errors[j].1;
    var r := Push(errors, field, x);
    match IndexOf(errors, field)
    case Some(i) =>
      if i == j {
        assert r[j].1 == errors[j].1 + [x];
      } else {
        assert r[j] == errors[j];
      }
      MessagesHas(r, j, e);
    case None =>
      assert r[j] == errors[j];
      MessagesHas(r, j, e);
  }

  lemma {:induction false} RecordedPushAll(errors: Table<string>, field: string, xs: seq<string>, e: string)
    requires Recorded(e, errors)
    ensures Recorded(e, PushAll(errors, field, xs))
    decreases |xs|
  {
    if xs != [] {
      RecordedPushAll(errors, field, xs[..|xs| - 1], e);
      RecordedPush(PushAll(errors, field, xs[..|xs| - 1]), field, xs[|xs| - 1], e);
    }
  }

  /** A message already recorded stays recorded after one more field is validated. */
  lemma ErrorKept(data: Entries, errors: Table<string>, field: string, rules: seq<Rule>, e: string)
    requires Recorded(e, errors)
    ensures Recorded(e, ValidateField(data, errors, field, rules).1)
  {
    var value := if IsSetIn(data, field) then Get(data, field).value else Null;
    RecordedPushAll(errors, field, Failures(rules, value), e);
  }

  lemma FailuresStep(rules: seq<Rule>, j: nat, value: Value)
    requires j < |rules|
    ensures Failures(rules[..j + 1], value) == Failures(rules[..j], value) + FailureOf(rules[j], value)
  {
    assert rules[..j + 1][..j] == rules[..j];
  }

  lemma ValidateFieldsSnoc(data: Entries, errors: Table<string>, vs: seq<(string, seq<Rule>)>, i: nat)
    requires i < |vs|
    ensures ValidateFields(data, errors, vs[..i + 1]) ==
      ValidateField(ValidateFields(data, errors, vs[..i]).0, ValidateFields(data, errors, vs[..i]).1, vs[i].0, vs[i].1)
  {
    assert vs[..i + 1][..i] == vs[..i];
  }

  lemma ConcatAssoc<T>(a: seq<T>, b: seq<T>, c: seq<T>)
    ensures (a + b) + c == a + (b + c)
  {
  }

  lemma PushAllSnoc<T>(m: Table<T>, k: string, xs: seq<T>, x: T)
    ensures PushAll(m, k, xs + [x]) == Push(PushAll(m, k, xs), k, x)
  {
    assert (xs + [x])[..|xs|] == xs;
  }

  /** Pushing two lists one after the other is pushing their concatenation. */
  lemma {:induction false} PushAllConcat<T>(m: Table<T>, k: string, xs: seq<T>, ys: seq<T>)
    ensures PushAll(m, k, xs + ys) == PushAll(PushAll(m, k, xs), k, ys)
    decreases |ys|
  {
    if ys == [] {
      assert xs + ys == xs;
    } else {
      var init := ys[..|ys| - 1];
      var y := ys[|ys| - 1];
      assert init + [y] == ys;
      PushAllConcat(m, k, xs, init);
      ConcatAssoc(xs, init, [y]);
      PushAllSnoc(m, k, xs + init, y);
      PushAllSnoc(PushAll(m, k, xs), k, init, y);
    }
  }

  /** The data a validation run starts from: body and files merged, blank strings as null. */
  function ValidationData(body: Entries, files: Entries): Entries
  {
    MapValues(Merge(body, files), Blank)
  }

  /** `new Validator($fieldValidators)`: a non-validator anywhere rejects the whole table. */
  method NewValidator(fieldValidators: seq<(string, FieldSpec)>) returns (r: Result<Validator>)
    ensures r.Err? <==> Register(None, fieldValidators).Err?
    ensures r.Err? ==> r.error == Register(None, fieldValidators).error
    ensures r.Ok? ==> fresh(r.value) && r.value.validators == Register(None, fieldValidators).value
    ensures r.Ok? ==> r.value.errors == [] && r.value.data == []
  {
    var v := new Validator();
    var i := 0;
    while i < |fieldValidators|
      invariant 0 <= i <= |fieldValidators|
      invariant fresh(v) && v.errors == [] && v.data == []
      invariant Register(None, fieldValidators) == Register(v.validators, fieldValidators[i..])
    {
      assert fieldValidators[i..][0] == fieldValidators[i] && fieldValidators[i..][1..] == fieldValidators[i + 1..];
      var o := v.AddValidator(fieldValidators[i].0, Candidates(fieldValidators[i].1));
      if o.Fail? {
        return Err(o.error);
      }
      i := i + 1;
    }
    return Ok(v);
  }

  // ---------------------------------------------------------------- Validator lemmas

  /** A upload wins over a body entry of the same name; blank strings become null. */
  lemma ValidationDataGet(body: Entries, files: Entries, k: string)
    requires DistinctKeys(files)
    ensures Get(ValidationData(body, files), k) ==
      if HasKey(files, k) then Some(Blank(Get(files, k).value))
      else if HasKey(body, k) then Some(Blank(Get(body, k).value))
      else None
  {
    MergeGet(body, files, k);
    MapValuesGet(Merge(body, files), Blank, k);
  }

  /** empty() after trim: whitespace and "0" are blank, "00" and "0.0" are not. */
  lemma BlankExamples()
    ensures Blank(Str(" 0\n")) == Null && Blank(Str("\t ")) == Null
    ensures Blank(Str("00")) == Str("00") && Blank(Str("0.0")) == Str("0.0")
    ensures Blank(Int(0)) == Int(0)
  {
    var a := " 0\n";
    assert a[0] in WHITESPACE && a[1..] == "0\n";
    TrimLeftNoop("0\n", WHITESPACE);
    var a' := "0\n";
    assert a'[|a'| - 1] in WHITESPACE && a'[..|a'| - 1] == "0";
    TrimRightNoop("0", WHITESPACE);
    assert Trim(a) == "0";
    var b := "\t ";
    assert b[0] in WHITESPACE && b[1..] == " ";
    assert " "[0] in WHITESPACE && " "[1..] == "";
    assert TrimLeft(b, WHITESPACE) == TrimLeft(" ", WHITESPACE) == TrimLeft("", WHITESPACE) == "";
    assert Trim(b) == "";
    TrimLeftNoop("00", WHITESPACE);
    TrimRightNoop("00", WHITESPACE);
    TrimLeftNoop("0.0", WHITESPACE);
    TrimRightNoop("0.0", WHITESPACE);
  }

  /** null is never rejected, so an unset field fails no validator. */
  lemma {:induction false} NullPasses(rules: seq<Rule>)
    ensures Failures(rules, Null) == []
    decreases |rules|
  {
    if rules != [] {
      NullPasses(rules[..|rules| - 1]);
    }
  }

  /** At most one message per rule, and none exactly when every rule accepts the value. */
  lemma {:induction false} FailuresCount(rules: seq<Rule>, value: Value)
    ensures |Failures(rules, value)| <= |rules|
    ensures (forall i :: 0 <= i < |rules| ==> Rejection(rules[i].message, rules[i].bi, value).None?) <==>
      Failures(rules, value) == []
    decreases |rules|
  {
    if rules != [] {
      var init := rules[..|rules| - 1];
      FailuresCount(init, value);
      assert Failures(rules, value) == Failures(init, value) + FailureOf(rules[|rules| - 1], value);
      assert forall i :: 0 <= i < |init| ==> init[i] == rules[i];
    }
  }

  /** Each recorded message is the error text of a rule that rejects the value. */
  lemma {:induction false} FailuresAreRejections(rules: seq<Rule>, value: Value, x: string)
    requires x in Failures(rules, value)
    ensures exists i :: 0 <= i < |rules| && Rejection(rules[i].message, rules[i].bi, value) == Some(x)
    decreases |rules|
  {
    var init := rules[..|rules| - 1];
    var last := |rules| - 1;
    assert Failures(rules, value) == Failures(init, value) + FailureOf(rules[last], value);
    if x in Failures(init, value) {
      FailuresAreRejections(init, value, x);
      var i :| 0 <= i < |init| && Rejection(init[i].message, init[i].bi, value) == Some(x);
      assert rules[i] == init[i];
    } else {
      FailureOfIsRejection(rules[last], value, x);
    }
  }

  /** The one message a rule records is its rejection text. */
  lemma FailureOfIsRejection(rule: Rule, value: Value, x: string)
    requires x in FailureOf(rule, value)
    ensures Rejection(rule.message, rule.bi, value) == Some(x)
  {
  }

  lemma PushList<T>(m: Table<T>, k: string, x: T, k': string)
    ensures ListAt(Push(m, k, x), k') == if k' == k then ListAt(m, k) + [x] else ListAt(m, k')
    ensures |Push(m, k, x)| >= |m| && Push(m, k, x) != []
  {
    PutGet(m, k, ListAt(m, k) + [x], k');
  }

  lemma {:induction false} PushAllList<T>(m: Table<T>, k: string, xs: seq<T>, k': string)
    ensures ListAt(PushAll(m, k, xs), k') == if k' == k then ListAt(m, k) + xs else ListAt(m, k')
    decreases |xs|
  {
    if xs != [] {
      var init := xs[..|xs| - 1];
      var x := xs[|xs| - 1];
      var before := PushAll(m, k, init);
      assert PushAll(m, k, xs) == Push(before, k, x);
      PushAllList(m, k, init, k');
      PushList(before, k, x, k');
      if k' == k {
        assert ListAt(PushAll(m, k, xs), k) == (ListAt(m, k) + init) + [x];
        ConcatAssoc(ListAt(m, k), init, [x]);
        assert init + [x] == xs;
      } else {
        assert ListAt(PushAll(m, k, xs), k') == ListAt(before, k');
      }
    }
  }

  /** Pushing never drops an entry of the table. */
  lemma {:induction false} PushAllGrows<T>(m: Table<T>, k: string, xs: seq<T>)
    ensures |PushAll(m, k, xs)| >= |m|
    ensures m != [] ==> PushAll(m, k, xs) != []
    decreases |xs|
  {
    if xs != [] {
      PushAllGrows(m, k, xs[..|xs| - 1]);
      PushList(PushAll(m, k, xs[..|xs| - 1]), k, xs[|xs| - 1], k);
    }
  }

  /** Every list of `m` is a prefix of the same key's list in `m'`. */
  ghost predicate Extends<T>(m: Table<T>, m': Table<T>)
  {
    forall k :: ListAt(m, k) <= ListAt(m', k)
  }

  /** validate only appends: earlier errors are never reset, so a failed validator keeps validate false. */
  lemma {:induction false} ErrorsAccumulate(data: Entries, errors: Table<string>, vs: seq<(string, seq<Rule>)>)
    ensures Extends(errors, ValidateFields(data, errors, vs).1)
    ensures |ValidateFields(data, errors, vs).1| >= |errors|
    ensures errors != [] ==> ValidateFields(data, errors, vs).1 != []
    decreases |vs|
  {
    if vs != [] {
      var init := vs[..|vs| - 1];
      var (d, e) := ValidateFields(data, errors, init);
      ErrorsAccumulate(data, errors, init);
      var last := vs[|vs| - 1];
      var value := if IsSetIn(d, last.0) then Get(d, last.0).value else Null;
      forall k ensures ListAt(errors, k) <= ListAt(ValidateFields(data, errors, vs).1, k) {
        PushAllList(e, last.0, Failures(last.1, value), k);
      }
      PushAllGrows(e, last.0, Failures(last.1, value));
    }
  }

  /**
   * After validation every field with validators has an entry: its own value when it was
   * set, null otherwise; fields without validators keep what they had.
   */
  lemma {:induction false} DataAfterValidation(data: Entries, errors: Table<string>, vs: seq<(string, seq<Rule>)>, f: string)
    ensures Get(ValidateFields(data, errors, vs).0, f) ==
      if IsSetIn(data, f) || !HasKey(vs, f) then Get(data, f) else Some(Null)
    decreases |vs|
  {
    if vs != [] {
      var init := vs[..|vs| - 1];
      var last := vs[|vs| - 1];
      DataAfterValidation(data, errors, init, f);
      DataAfterValidation(data, errors, init, last.0);
      var d := ValidateFields(data, errors, init).0;
      PutGet(d, last.0, Null, f);
      ListedLast(vs, f);
    }
  }

  /** A key is listed in `vs` when it is listed before the last entry or is the last entry's. */
  lemma ListedLast<V>(vs: seq<(string, V)>, f: string)
    requires vs != []
    ensures HasKey(vs, f) <==> HasKey(vs[..|vs| - 1], f) || vs[|vs| - 1].0 == f
  {
    var init := vs[..|vs| - 1];
    assert vs == init + [vs[|vs| - 1]];
    assert HasKey(vs, f) <==> exists i :: 0 <= i < |vs| && vs[i].0 == f;
    assert HasKey(init, f) <==> exists i :: 0 <= i < |init| && init[i].0 == f;
  }

  /** The errors validate records for a field of the table `vs`. */
  function FieldFailures(data: Entries, vs: seq<(string, seq<Rule>)>, f: string): seq<string>
  {
    match Get(vs, f)
    case Some(rules) => Failures(rules, if IsSetIn(data, f) then Get(data, f).value else Null)
    case None => []
  }

  /** The value validate checks for a field: its own when set, null otherwise. */
  function CheckedValue(data: Entries, f: string): Value
  {
    if IsSetIn(data, f) then Get(data, f).value else Null
  }

  /** The last field of a table adds its failures to its own list and to no other. */
  lemma ErrorsStep(data: Entries, errors: Table<string>, init: seq<(string, seq<Rule>)>, last: (string, seq<Rule>), f: string)
    ensures ListAt(ValidateFields(data, errors, init + [last]).1, f) ==
      ListAt(ValidateFields(data, errors, init).1, f) + (if f == last.0 then Failures(last.1, CheckedValue(data, last.0)) else [])
  {
    assert (init + [last])[..|init|] == init;
    var (d, e) := ValidateFields(data, errors, init);
    DataAfterValidation(data, errors, init, last.0);
    assert CheckedValue(d, last.0) == CheckedValue(data, last.0);
    PushAllList(e, last.0, Failures(last.1, CheckedValue(data, last.0)), f);
    if f != last.0 {
      assert ListAt(e, f) + [] == ListAt(e, f);
    }
  }

  /** The failures of a field listed once: the last entry's when it is that field's. */
  lemma FieldFailuresStep(data: Entries, init: seq<(string, seq<Rule>)>, last: (string, seq<Rule>), f: string)
    requires !HasKey(init, last.0)
    ensures FieldFailures(data, init + [last], f) ==
      FieldFailures(data, init, f) + (if f == last.0 then Failures(last.1, CheckedValue(data, last.0)) else [])
  {
    AppendGet(init, last.0, last.1, f);
    if f != last.0 {
      assert FieldFailures(data, init, f) + [] == FieldFailures(data, init, f);
    }
  }

  /** Each field's errors are its old errors followed by its failing validators' messages, in order. */
  lemma {:induction false} ErrorsOfField(data: Entries, errors: Table<string>, vs: seq<(string, seq<Rule>)>, f: string)
    requires DistinctKeys(vs)
    ensures ListAt(ValidateFields(data, errors, vs).1, f) == ListAt(errors, f) + FieldFailures(data, vs, f)
    decreases |vs|
  {
    if vs == [] {
      assert ListAt(errors, f) + [] == ListAt(errors, f);
    } else {
      var init := vs[..|vs| - 1];
      var last := vs[|vs| - 1];
      assert vs == init + [last];
      assert DistinctKeys(init);
      ErrorsOfField(data, errors, init, f);
      assert !HasKey(init, last.0) by {
        forall i | 0 <= i < |init| ensures init[i].0 != last.0 {
          assert vs[i] == init[i];
        }
      }
      ErrorsStep(data, errors, init, last, f);
      FieldFailuresStep(data, init, last, f);
      var tail := if f == last.0 then Failures(last.1, CheckedValue(data, last.0)) else [];
      ConcatAssoc(ListAt(errors, f), FieldFailures(data, init, f), tail);
    }
  }

  /** A list of candidates registers when every candidate is a validator. */
  lemma {:induction false} AddAllAccepts(m: Option<Table<Numeric>>, field: string, cs: seq<Candidate>)
    ensures AddAll(m, field, cs).Ok? <==> forall j :: 0 <= j < |cs| ==> cs[j].Check?
    decreases |cs|
  {
    if cs != [] {
      if cs[0].Check? {
        AddAllAccepts(Some(Push(if m.Some? then m.value else [], field, cs[0].n)), field, cs[1..]);
        assert forall j :: 1 <= j < |cs| ==> cs[j] == cs[1..][j - 1];
      }
    }
  }

  /** The validator objects among the candidates, in order. */
  function CheckObjects(cs: seq<Candidate>): (ns: seq<Numeric>)
    ensures |ns| <= |cs|
  {
    if cs == [] then [] else (if cs[0].Check? then [cs[0].n] else []) + CheckObjects(cs[1..])
  }

  /** When every candidate is a validator, they are all kept, in order. */
  lemma {:induction false} CheckObjectsAll(cs: seq<Candidate>)
    requires forall i :: 0 <= i < |cs| ==> cs[i].Check?
    ensures |CheckObjects(cs)| == |cs| && forall j :: 0 <= j < |cs| ==> CheckObjects(cs)[j] == cs[j].n
    decreases |cs|
  {
    if cs != [] {
      assert forall i :: 0 <= i < |cs[1..]| ==> cs[1..][i].Check?;
      CheckObjectsAll(cs[1..]);
    }
  }

  function TableOf(m: Option<Table<Numeric>>): Table<Numeric>
  {
    if m.Some? then m.value else []
  }

  /** One registration step: the first validator is pushed, the rest registered after it. */
  lemma AddAllStep(m: Option<Table<Numeric>>, field: string, cs: seq<Candidate>, k: string)
    requires cs != [] && cs[0].Check?
    ensures AddAll(m, field, cs) == AddAll(Some(Push(TableOf(m), field, cs[0].n)), field, cs[1..])
    ensures ListAt(TableOf(Some(Push(TableOf(m), field, cs[0].n))), k) ==
      if k == field then ListAt(TableOf(m), k) + [cs[0].n] else ListAt(TableOf(m), k)
  {
    PushList(TableOf(m), field, cs[0].n, k);
  }

  /** Registered validators are appended under their field in the order given. */
  lemma {:induction false} AddAllAppends(m: Option<Table<Numeric>>, field: string, cs: seq<Candidate>)
    requires forall j :: 0 <= j < |cs| ==> cs[j].Check?
    ensures AddAll(m, field, cs).Ok?
    ensures ListAt(TableOf(AddAll(m, field, cs).value), field) == ListAt(TableOf(m), field) + CheckObjects(cs)
    decreases |cs|
  {
    if cs == [] {
      assert ListAt(TableOf(m), field) + [] == ListAt(TableOf(m), field);
    } else {
      var m' := Some(Push(TableOf(m), field, cs[0].n));
      AddAllStep(m, field, cs, field);
      assert forall j :: 0 <= j < |cs[1..]| ==> cs[1..][j].Check?;
      AddAllAppends(m', field, cs[1..]);
      assert CheckObjects(cs) == [cs[0].n] + CheckObjects(cs[1..]);
    }
  }

  /** Registering validators for one field leaves the other fields' lists alone. */
  lemma {:induction false} AddAllOthers(m: Option<Table<Numeric>>, field: string, cs: seq<Candidate>, k: string)
    requires AddAll(m, field, cs).Ok? && k != field
    ensures ListAt(TableOf(AddAll(m, field, cs).value), k) == ListAt(TableOf(m), k)
    decreases |cs|
  {
    if cs != [] {
      var m' := Some(Push(TableOf(m), field, cs[0].n));
      AddAllStep(m, field, cs, k);
      AddAllOthers(m', field, cs[1..], k);
    }
  }

  /** Registering keeps one entry per field. */
  lemma {:induction false} AddAllDistinct(m: Option<Table<Numeric>>, field: string, cs: seq<Candidate>)
    requires AddAll(m, field, cs).Ok? && DistinctKeys(TableOf(m))
    ensures DistinctKeys(TableOf(AddAll(m, field, cs).value))
    decreases |cs|
  {
    if cs != [] {
      var t := TableOf(m);
      PutKeys(t, field, ListAt(t, field) + [cs[0].n]);
      AddAllDistinct(Some(Push(t, field, cs[0].n)), field, cs[1..]);
    }
  }

  /** The first candidate that is not a validator names the field and what it was. */
  lemma {:induction false} AddAllRejects(m: Option<Table<Numeric>>, field: string, cs: seq<Candidate>, j: nat)
    requires j < |cs| && cs[j].Other? && forall i :: 0 <= i < j ==> cs[i].Check?
    ensures AddAll(m, field, cs) == Err(InvalidArgumentException(ValidatorMessage(field, cs[j].v)))
    decreases j
  {
    if j > 0 {
      AddAllRejects(Some(Push(TableOf(m), field, cs[0].n)), field, cs[1..], j - 1);
    }
  }

  /** The constructor succeeds exactly when every candidate of every field is a validator. */
  lemma {:induction false} RegisterAccepts(m: Option<Table<Numeric>>, fvs: seq<(string, FieldSpec)>)
    ensures Register(m, fvs).Ok? <==>
      forall i, j :: 0 <= i < |fvs| && 0 <= j < |Candidates(fvs[i].1)| ==> Candidates(fvs[i].1)[j].Check?
    ensures Register(m, fvs).Ok? && DistinctKeys(TableOf(m)) ==> DistinctKeys(TableOf(Register(m, fvs).value))
    decreases |fvs|
  {
    if fvs != [] {
      var cs := Candidates(fvs[0].1);
      AddAllAccepts(m, fvs[0].0, cs);
      if AddAll(m, fvs[0].0, cs).Ok? {
        if DistinctKeys(TableOf(m)) {
          AddAllDistinct(m, fvs[0].0, cs);
        }
        RegisterAccepts(AddAll(m, fvs[0].0, cs).value, fvs[1..]);
        assert forall i :: 1 <= i < |fvs| ==> fvs[i] == fvs[1..][i - 1];
      }
    }
  }
}
