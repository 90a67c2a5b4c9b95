/**
 * The logger: a message template whose `{key}` placeholders are filled from a context,
 * handed to a handler as one record with the message, the upper-cased level and a
 * timestamp. The handler is modelled by the records it has received.
 */
module Log {
  import opened Wrappers
  import opened PhpArrays
  import opened Strings
  import opened Values

  const ALERT := "alert"
  const ERROR := "error"
  const INFO := "info"

  /** The placeholder a context key fills. */
  function Brace(k: Key): string
  {
    "{" + KeyString(k) + "}"
  }

  /**
   * `is_string($val) || method_exists($val, '__toString')` under strict types: a string or
   * a stringable object gives its text, another object is skipped, and anything else is
   * refused by method_exists with a TypeError.
   */
  function ReplacementOf(v: Value): (r: Result<Option<string>>)
    ensures r.Err? <==> !v.Str? && !IsObject(v)
  {
    if v.Str? then Ok(Some(v.s))
    else if v.Instance? && v.obj.toStr.Some? then Ok(Some(v.obj.toStr.value))
    else if IsObject(v) then Ok(None)
    else Err(TypeError)
  }

  /** The replacement map interpolate builds, in context order. */
  function InterpolationPairs(context: seq<(Key, Value)>): (r: Result<seq<(string, string)>>)
    ensures r.Err? ==> r == Err(TypeError)
  {
    if context == [] then Ok([])
    else
      var last := context[|context| - 1];
      match InterpolationPairs(context[..|context| - 1])
      case Err(e) => Err(e)
      case Ok(pairs) =>
        match ReplacementOf(last.1)
        case Err(e) => Err(e)
        case Ok(None) => Ok(pairs)
        case Ok(Some(text)) => Ok(Put(pairs, Brace(last.0), text))
  }

  function Interpolated(message: string, context: seq<(Key, Value)>): Result<string>
  {
    match InterpolationPairs(context)
    case Err(e) => Err(e)
    case Ok(pairs) => Ok(Strtr(message, pairs))
  }

  /** interpolate: the loop over the context, then strtr. */
  method Interpolate(message: string, context: seq<(Key, Value)>) returns (r: Result<string>)
    ensures r == Interpolated(message, context)
  {
    var replace: seq<(string, string)> := [];
    var i := 0;
    while i < |context|
      invariant 0 <= i <= |context|
      invariant InterpolationPairs(context[..i]) == Ok(replace)
    {
      assert context[..i + 1][..i] == context[..i];
      var (key, val) := context[i];
      if val.Str? {
        replace := Put(replace, Brace(key), val.s);
      } else if IsObject(val) {
        if val.Instance? && val.obj.toStr.Some? {
          replace := Put(replace, Brace(key), val.obj.toStr.value);
        }
      } else {
        ErrorStaysError(context, i);
        return Err(TypeError);
      }
      i := i + 1;
    }
    assert context[..|context|] == context;
    return Ok(Strtr(message, replace));
  }

  /** Once an entry is refused, the whole context is. */
  lemma {:induction false} ErrorStaysError(context: seq<(Key, Value)>, i: nat)
    requires i < |context| && ReplacementOf(context[i].1).Err?
    ensures InterpolationPairs(context) == Err(TypeError)
    decreases |context|
  {
    if i < |context| - 1 {
      assert context[..|context| - 1][i] == context[i];
      ErrorStaysError(context[..|context| - 1], i);
    }
  }

  /** The record handed to the handler. */
  function RecordOf(message: string, level: string, timestamp: string): seq<(string, string)>
  {
    [("message", message), ("level", ToUpper(level)), ("timestamp", timestamp)]
  }

  /** log(): a null message is interpolated as the empty string. */
  function LogRecord(level: string, message: Option<string>, context: seq<(Key, Value)>, now: string): Result<seq<(string, string)>>
  {
    var text := if message.Some? then message.value else "";
    match Interpolated(text, context)
    case Err(e) => Err(e)
    case Ok(m) => Ok(RecordOf(m, level, now))
  }

  class Logger {
    /** The records the handler has received, oldest first. */
    var handled: seq<seq<(string, string)>>

    constructor()
      ensures handled == []
    {
      handled := [];
    }

    /** `now` is the clock reading formatted as ISO 8601. */
    method Log(level: string, message: Option<string>, context: seq<(Key, Value)>, now: string) returns (r: Outcome)
      modifies this
      ensures LogRecord(level, message, context, now).Ok? ==>
        r == Pass && handled == old(handled) + [LogRecord(level, message, context, now).value]
      ensures LogRecord(level, message, context, now).Err? ==>
        r == Fail(LogRecord(level, message, context, now).error) && handled == old(handled)
    {
      var text := if message.Some? then message.value else "";
      var m := Interpolate(text, context);
      if m.Err? {
        return Fail(m.error);
      }
      handled := handled + [RecordOf(m.value, level, now)];
      return Pass;
    }

    method Alert(message: string, context: seq<(Key, Value)>, now: string) returns (r: Outcome)
      modifies this
      ensures LogRecord(ALERT, Some(message), context, now).Ok? ==>
        r == Pass && handled == old(handled) + [LogRecord(ALERT, Some(message), context, now).value]
      ensures LogRecord(ALERT, Some(message), context, now).Err? ==>
        r == Fail(LogRecord(ALERT, Some(message), context, now).error) && handled == old(handled)
    {
      r := Log(ALERT, Some(message), context, now);
    }

    method Error(message: string, context: seq<(Key, Value)>, now: string) returns (r: Outcome)
      modifies this
      ensures LogRecord(ERROR, Some(message), context, now).Ok? ==>
        r == Pass && handled == old(handled) + [LogRecord(ERROR, Some(message), context, now).value]
      ensures LogRecord(ERROR, Some(message), context, now).Err? ==>
        r == Fail(LogRecord(ERROR, Some(message), context, now).error) && handled == old(handled)
    {
      r := Log(ERROR, Some(message), context, now);
    }

    method Info(message: string, context: seq<(Key, Value)>, now: string) returns (r: Outcome)
      modifies this
      ensures LogRecord(INFO, Some(message), context, now).Ok? ==>
        r == Pass && handled == old(handled) + [LogRecord(INFO, Some(message), context, now).value]
      ensures LogRecord(INFO, Some(message), context, now).Err? ==>
        r == Fail(LogRecord(INFO, Some(message), context, now).error) && handled == old(handled)
    {
      r := Log(INFO, Some(message), context, now);
    }
  }

  // ---------------------------------------------------------------- lemmas

  /** The shortcuts log at the levels ALERT, ERROR and INFO. */
  lemma LevelNames(message: string, now: string)
    ensures RecordOf(message, ALERT, now)[1] == ("level", "ALERT")
    ensures RecordOf(message, ERROR, now)[1] == ("level", "ERROR")
    ensures RecordOf(message, INFO, now)[1] == ("level", "INFO")
  {
    assert ToUpper(ALERT) == "ALERT";
    assert ToUpper(ERROR) == "ERROR";
    assert ToUpper(INFO) == "INFO";
  }

  /** A record has exactly the keys message, level and timestamp. */
  lemma RecordShape(level: string, message: Option<string>, context: seq<(Key, Value)>, now: string)
    requires LogRecord(level, message, context, now).Ok?
    ensures Keys(LogRecord(level, message, context, now).value) == ["message", "level", "timestamp"]
    ensures Get(LogRecord(level, message, context, now).value, "level") == Some(ToUpper(level))
    ensures Get(LogRecord(level, message, context, now).value, "timestamp") == Some(now)
  {
    var rec := LogRecord(level, message, context, now).value;
    assert rec[0].0 != "level" && rec[0].0 != "timestamp";
    assert rec[1].0 != "timestamp";
    IndexOfAt(rec, "level", 1);
    IndexOfAt(rec, "timestamp", 2);
  }

  /** A null message logs as the empty message. */
  lemma NullMessage(level: string, context: seq<(Key, Value)>, now: string)
    ensures LogRecord(level, None, context, now) == LogRecord(level, Some(""), context, now)
  {
  }

  /** interpolate fails exactly when some context value is neither a string nor an object. */
  lemma {:induction false} InterpolationFails(context: seq<(Key, Value)>)
    ensures InterpolationPairs(context).Err? <==>
      exists i :: 0 <= i < |context| && !context[i].1.Str? && !IsObject(context[i].1)
    decreases |context|
  {
    if context != [] {
      var init := context[..|context| - 1];
      InterpolationFails(init);
      if InterpolationPairs(context).Err? {
        if InterpolationPairs(init).Err? {
          var i :| 0 <= i < |init| && !init[i].1.Str? && !IsObject(init[i].1);
          assert context[i] == init[i];
        }
      } else {
        forall i | 0 <= i < |context| ensures context[i].1.Str? || IsObject(context[i].1) {
          if i < |init| {
            assert context[i] == init[i];
          }
        }
      }
    }
  }

  /** A placeholder whose key has a string value becomes that string. */
  lemma PlaceholderFilled(name: string, v: string)
    ensures Interpolated("{" + name + "}", [(StrKey(name), Str(v))]) == Ok(v)
  {
    var context := [(StrKey(name), Str(v))];
    assert context[..0] == [];
    var k := "{" + name + "}";
    var pairs := [(k, v)];
    assert InterpolationPairs([]) == Ok([]);
    assert Brace(StrKey(name)) == k;
    assert Put([], k, v) == pairs;
    assert InterpolationPairs(context) == Ok(pairs);
    assert k + [] == k;
    StrtrKey(k, [], pairs, 0);
    assert Strtr([], pairs) == [];
    assert v + [] == v;
    assert Strtr(k, pairs) == v;
  }

  /** Objects without __toString add no placeholder. */
  lemma ObjectSkipped(context: seq<(Key, Value)>, k: Key, v: Value)
    requires IsObject(v) && !(v.Instance? && v.obj.toStr.Some?)
    ensures InterpolationPairs(context + [(k, v)]) == InterpolationPairs(context)
  {
    assert (context + [(k, v)])[..|context|] == context;
  }

  /** Text with no '{' is logged as written, whatever the context supplies. */
  lemma {:induction false} BraceFreeKept(message: string, context: seq<(Key, Value)>)
    requires forall i :: 0 <= i < |message| ==> message[i] != '{'
    requires InterpolationPairs(context).Ok?
    ensures Interpolated(message, context) == Ok(message)
  {
    var pairs := InterpolationPairs(context).value;
    PairsAreBraced(context);
    StrtrPlain(message, [], pairs);
    assert message + [] == message;
  }

  /** Every key of the replacement map is some key in braces. */
  lemma {:induction false} PairsAreBraced(context: seq<(Key, Value)>)
    requires InterpolationPairs(context).Ok?
    ensures forall j :: 0 <= j < |InterpolationPairs(context).value| ==>
      InterpolationPairs(context).value[j].0 != [] && InterpolationPairs(context).value[j].0[0] == '{'
    decreases |context|
  {
    if context != [] {
      var init := context[..|context| - 1];
      PairsAreBraced(init);
      var pairs := InterpolationPairs(init).value;
      var last := context[|context| - 1];
      if ReplacementOf(last.1).value.Some? {
        var text := ReplacementOf(last.1).value.value;
        var r := Put(pairs, Brace(last.0), text);
        assert forall j :: 0 <= j < |r| ==> r[j] in pairs || r[j] == (Brace(last.0), text);
      }
    }
  }

  /** A placeholder for a key the context does not supply stays as written. */
  lemma UnknownPlaceholderKept(v: string)
    ensures Interpolated("{user} left", [(StrKey("id"), Str(v))]) == Ok("{user} left")
  {
    var pairs := [("{id}", v)];
    var context := [(StrKey("id"), Str(v))];
    assert context[..0] == [];
    assert InterpolationPairs([]) == Ok([]);
    assert Brace(StrKey("id")) == "{id}";
    assert Put([], "{id}", v) == pairs;
    assert InterpolationPairs(context) == Ok(pairs);
    UnknownStep(v, "{user} left");
  }

  lemma UnknownStep(v: string, m: string)
    requires m == "{user} left"
    ensures Strtr(m, [("{id}", v)]) == m
  {
    var pairs := [("{id}", v)];
    var rest := m[1..];
    assert NoKeyStarts(rest, pairs) by {
      forall i | 0 <= i < |rest| ensures rest[i] != '{' {
      }
    }
    StrtrPlain(rest, [], pairs);
    assert rest + [] == rest;
    assert !("{id}" <= m) by {
      assert "{id}"[1] != m[1];
    }
    assert LongestKeyAt(m, pairs).None?;
    assert m == [m[0]] + rest;
  }

  /**
   * The text that fills `{name}`: the last string or stringable value in the context
   * under a key spelled `name`, or None when there is none.
   */
  function LastText(context: seq<(Key, Value)>, name: string): (r: Option<string>)
    ensures r.Some? ==> exists i :: 0 <= i < |context| && KeyString(context[i].0) == name && ReplacementOf(context[i].1) == Ok(r)
    ensures r.None? ==> forall i :: 0 <= i < |context| && KeyString(context[i].0) == name && ReplacementOf(context[i].1).Ok? ==>
      ReplacementOf(context[i].1).value.None?
    decreases |context|
  {
    if context == [] then None
    else
      var init := context[..|context| - 1];
      var last := context[|context| - 1];
      if KeyString(last.0) == name && ReplacementOf(last.1).Ok? && ReplacementOf(last.1).value.Some? then
        ReplacementOf(last.1).value
      else
        assert forall i :: 0 <= i < |init| ==> init[i] == context[i];
        LastText(init, name)
  }

  /** A key in braces whose text has no '}'. */
  predicate Placeholder(p: string)
  {
    |p| >= 2 && p[0] == '{' && p[|p| - 1] == '}' && '}' !in p[1..|p| - 1]
  }

  /** The replacement map holds the last text given for each placeholder. */
  lemma {:induction false} PairsGet(context: seq<(Key, Value)>, name: string)
    requires InterpolationPairs(context).Ok?
    ensures Get(InterpolationPairs(context).value, "{" + name + "}") == LastText(context, name)
    decreases |context|
  {
    if context != [] {
      var init := context[..|context| - 1];
      var last := context[|context| - 1];
      PairsGet(init, name);
      var pairs := InterpolationPairs(init).value;
      if ReplacementOf(last.1).value.Some? {
        var k := "{" + name + "}";
        PutGet(pairs, Brace(last.0), ReplacementOf(last.1).value.value, k);
        if k == Brace(last.0) {
          assert name == k[1..|k| - 1] == Brace(last.0)[1..|Brace(last.0)| - 1] == KeyString(last.0);
        }
      }
    }
  }

  /** A key without '}' braces to a placeholder. */
  lemma BracePlaceholder(k: Key)
    requires '}' !in KeyString(k)
    ensures Placeholder(Brace(k))
  {
    var b := Brace(k);
    assert b[1..|b| - 1] == KeyString(k);
  }

  /** Keys without '}' give a map of distinct placeholders. */
  lemma {:induction false} PairsArePlaceholders(context: seq<(Key, Value)>)
    requires InterpolationPairs(context).Ok?
    requires forall i :: 0 <= i < |context| ==> '}' !in KeyString(context[i].0)
    ensures DistinctKeys(InterpolationPairs(context).value)
    ensures forall j :: 0 <= j < |InterpolationPairs(context).value| ==> Placeholder(InterpolationPairs(context).value[j].0)
    decreases |context|
  {
    if context != [] {
      var init := context[..|context| - 1];
      var last := context[|context| - 1];
      assert forall i :: 0 <= i < |init| ==> init[i] == context[i];
      PairsArePlaceholders(init);
      var pairs := InterpolationPairs(init).value;
      if ReplacementOf(last.1).value.Some? {
        var text := ReplacementOf(last.1).value.value;
        BracePlaceholder(last.0);
        PlacedKeys(pairs, Brace(last.0), text);
      }
    }
  }

  lemma PlacedKeys(pairs: seq<(string, string)>, k: string, v: string)
    requires DistinctKeys(pairs) && Placeholder(k)
    requires forall j :: 0 <= j < |pairs| ==> Placeholder(pairs[j].0)
    ensures DistinctKeys(Put(pairs, k, v))
    ensures forall j :: 0 <= j < |Put(pairs, k, v)| ==> Placeholder(Put(pairs, k, v)[j].0)
  {
    PutKeys(pairs, k, v);
    var r := Put(pairs, k, v);
    assert forall j :: 0 <= j < |r| ==> r[j] in pairs || r[j] == (k, v);
  }

  /** A placeholder at the head of `{name}...` is `{name}` itself, when neither holds a '}'. */
  lemma PlaceholderPrefix(p: string, name: string, b: string)
    requires Placeholder(p) && '}' !in name
    requires p <= "{" + name + "}" + b
    ensures p == "{" + name + "}"
  {
    var m := "{" + name + "}" + b;
    assert forall i :: 1 <= i < |p| - 1 ==> p[i] == p[1..|p| - 1][i - 1] != '}';
    assert forall i :: 1 <= i <= |name| ==> m[i] == name[i - 1] != '}';
    assert m[|name| + 1] == '}' && p[|p| - 1] == '}';
    assert p == m[..|p|];
  }

  /** strtr over placeholders: a known `{name}` is replaced and the scan resumes after it. */
  lemma StrtrFilled(name: string, b: string, pairs: seq<(string, string)>, t: string)
    requires DistinctKeys(pairs) && forall j :: 0 <= j < |pairs| ==> Placeholder(pairs[j].0)
    requires '}' !in name && Get(pairs, "{" + name + "}") == Some(t)
    ensures Strtr("{" + name + "}" + b, pairs) == t + Strtr(b, pairs)
  {
    var k := "{" + name + "}";
    var j :| 0 <= j < |pairs| && pairs[j] == (k, t);
    forall i | 0 <= i < |pairs| && pairs[i].0 <= k + b ensures |pairs[i].0| <= |k| {
      PlaceholderPrefix(pairs[i].0, name, b);
    }
    StrtrKey(k, b, pairs, j);
  }

  /** strtr over placeholders: an unknown `{name}` is copied and the scan resumes after it. */
  lemma StrtrKept(name: string, b: string, pairs: seq<(string, string)>)
    requires forall j :: 0 <= j < |pairs| ==> Placeholder(pairs[j].0)
    requires '{' !in name && '}' !in name && Get(pairs, "{" + name + "}").None?
    ensures Strtr("{" + name + "}" + b, pairs) == "{" + name + "}" + Strtr(b, pairs)
  {
    var k := "{" + name + "}";
    var rest := name + "}";
    assert k + b == ['{'] + (rest + b);
    forall j | 0 <= j < |pairs| && pairs[j].0 != [] ensures !(pairs[j].0 <= ['{'] + (rest + b)) {
      if pairs[j].0 <= ['{'] + (rest + b) {
        PlaceholderPrefix(pairs[j].0, name, b);
      }
    }
    StrtrNoKeyHere('{', rest + b, pairs);
    assert NoKeyStarts(rest, pairs) by {
      forall i, j | 0 <= i < |rest| && 0 <= j < |pairs| && pairs[j].0 != [] ensures pairs[j].0[0] != rest[i] {
        assert rest[i] in rest;
      }
    }
    StrtrPlain(rest, b, pairs);
  }

  /** No placeholder starts inside text without '{'. */
  lemma BraceFreePlain(a: string, pairs: seq<(string, string)>)
    requires forall j :: 0 <= j < |pairs| ==> Placeholder(pairs[j].0)
    requires '{' !in a
    ensures NoKeyStarts(a, pairs)
  {
    forall i, j | 0 <= i < |a| && 0 <= j < |pairs| && pairs[j].0 != [] ensures pairs[j].0[0] != a[i] {
      assert a[i] in a;
    }
  }

  /** strtr over placeholders, at the first '{' of the text: a known placeholder is replaced. */
  lemma StrtrAtFilled(a: string, name: string, b: string, pairs: seq<(string, string)>, t: string)
    requires DistinctKeys(pairs) && forall j :: 0 <= j < |pairs| ==> Placeholder(pairs[j].0)
    requires '{' !in a && '}' !in name && Get(pairs, "{" + name + "}") == Some(t)
    ensures Strtr(a + "{" + name + "}" + b, pairs) == a + t + Strtr(b, pairs)
  {
    BraceFreePlain(a, pairs);
    Regroup(a, name, b);
    StrtrPlain(a, "{" + name + "}" + b, pairs);
    StrtrFilled(name, b, pairs, t);
  }

  /** strtr over placeholders, at the first '{' of the text: an unknown placeholder is copied. */
  lemma StrtrAtKept(a: string, name: string, b: string, pairs: seq<(string, string)>)
    requires forall j :: 0 <= j < |pairs| ==> Placeholder(pairs[j].0)
    requires '{' !in a && '{' !in name && '}' !in name && Get(pairs, "{" + name + "}").None?
    ensures Strtr(a + "{" + name + "}" + b, pairs) == a + "{" + name + "}" + Strtr(b, pairs)
  {
    BraceFreePlain(a, pairs);
    Regroup(a, name, b);
    StrtrPlain(a, "{" + name + "}" + b, pairs);
    StrtrKept(name, b, pairs);
    Regroup(a, name, Strtr(b, pairs));
  }

  lemma Regroup(a: string, name: string, b: string)
    ensures a + "{" + name + "}" + b == a + ("{" + name + "}" + b)
  {
  }

  /**
   * interpolate on any message, one placeholder at a time: text before the first '{' is
   * kept, `{name}` becomes the last text the context gives for it or stays as written,
   * and the rest is interpolated in turn.
   */
  lemma PlaceholderAt(a: string, name: string, b: string, context: seq<(Key, Value)>)
    requires InterpolationPairs(context).Ok?
    requires '{' !in a && '{' !in name && '}' !in name
    requires forall i :: 0 <= i < |context| ==> '}' !in KeyString(context[i].0)
    ensures LastText(context, name).Some? ==>
      Interpolated(a + "{" + name + "}" + b, context) == Ok(a + LastText(context, name).value + Interpolated(b, context).value)
    ensures LastText(context, name).None? ==>
      Interpolated(a + "{" + name + "}" + b, context) == Ok(a + "{" + name + "}" + Interpolated(b, context).value)
  {
    var pairs := InterpolationPairs(context).value;
    PairsArePlaceholders(context);
    PairsGet(context, name);
    match LastText(context, name)
    case Some(t) => StrtrAtFilled(a, name, b, pairs, t);
    case None => StrtrAtKept(a, name, b, pairs);
  }
}
