/** The validator shared by both versions of the normaliser: `format_message`
    and `retrieve_key` (src/PrintingPress/internals.py), and the older
    `Internals.retrieve_key` that compares types exactly
    (PrintingPress/printingpress.py). */
module Internals {
  import opened Wrappers
  import opened Values
  import opened Strings

  /** Python's own operators that raise TypeError on the wrong kind of value. */
  datatype BuiltinOp =
    | Subscript   // `target[key]` on something that is not a dict
    | Len         // `len(x)` on something without a length (`None`)
    | Compare     // `x < n` / `x > n` on something that is not a number
    | Iterate     // `for x in v` on something that is not iterable
    | Attribute   // a method looked up on a value that lacks it (AttributeError)

  /** The `assert` statements of the normaliser. */
  datatype Check =
    | PlacesNotDict   // the whole placement mapping is not a dict
    | UnknownKind     // `type` is neither "image" nor "text"
    | ColourArity     // a colour list does not have 3 values
    | ColourRange     // a colour value is not below 256
    | FilterArity     // `filter_data` does not have 1 value
    | FilterType      // the `filter_data` value is not an int
    | PairArity       // `xy` / `wh` does not have 2 values
    | MissingFile     // the path does not name an existing file

  /** A message as `format_message` receives it: a template and the
      placeholder map; `Render` produces the text. */
  datatype Message = Message(template: string, fmap: seq<(string, string)>)

  /** Everything the normaliser can raise. */
  datatype Failure =
    | KeyError(message: Message)               // missing required key
    | TypeError(message: Message)              // present key of the wrong type
    | Builtin(op: BuiltinOp)                   // TypeError from a Python operator
    | Assertion(area: string, check: Check)    // AssertionError
    | Undecodable(path: string)                // the image engine cannot open the file
    | Unloadable(path: string)                 // FreeType cannot build a font from the file at the size

  /** `format_message`: each `(placeholder, text)` pair, in order, replaces
      every occurrence of the placeholder in the message produced so far. */
  function FormatMessage(message: string, fmap: seq<(string, string)>): string
    decreases |fmap|
  {
    if |fmap| == 0 then message
    else FormatMessage(ReplaceAll(message, fmap[0].0, fmap[0].1), fmap[1..])
  }

  /** A message mentioning none of the placeholders comes back unchanged. */
  lemma {:induction false} FormatMessageAbsent(message: string, fmap: seq<(string, string)>)
    requires forall i :: 0 <= i < |fmap| ==> |fmap[i].0| > 0 && !Occurs(message, fmap[i].0)
    ensures FormatMessage(message, fmap) == message
    decreases |fmap|
  {
    if |fmap| > 0 {
      ReplaceAbsent(message, fmap[0].0, fmap[0].1);
      FormatMessageAbsent(message, fmap[1..]);
    }
  }

  /** Formatting distributes over the map: the first pairs, then the rest. */
  lemma {:induction false} FormatMessageSplit(message: string, f: seq<(string, string)>, g: seq<(string, string)>)
    ensures FormatMessage(message, f + g) == FormatMessage(FormatMessage(message, f), g)
    decreases |f|
  {
    if |f| > 0 {
      assert (f + g)[1..] == f[1..] + g;
      FormatMessageSplit(ReplaceAll(message, f[0].0, f[0].1), f[1..], g);
    } else {
      assert f + g == g;
    }
  }

  /** How a validator decides that a present value has the expected type. */
  datatype TypeRule =
    | InstanceOf   // `isinstance(value, expected) is False` rejects
    | ExactType    // `type(value) != expected` rejects

  /** A version of `retrieve_key`: its type rule and its two default message
      templates. */
  datatype Validator = Validator(rule: TypeRule, requiredTemplate: string, expectedTemplate: string)

  /** src/PrintingPress/internals.py */
  const Current := Validator(InstanceOf, "key f:key is required", "key f:key is type f:type, but expected f:extype")

  /** PrintingPress/printingpress.py */
  const Legacy := Validator(ExactType, "f:key is required", "f:key is type f:type, but expected f:extype")

  /** `type(v) != e` is false only for a class equal to `type(v)`; a tuple
      never equals a class. */
  predicate HasType(v: Value, e: Expected) {
    match e
    case One(t) => TypeOf(v) == t
    case AnyOf(_) => false
  }

  predicate Accepts(rule: TypeRule, v: Value, e: Expected) {
    match rule
    case InstanceOf => IsInstance(v, e)
    case ExactType => HasType(v, e)
  }

  /** The placeholder map of `retrieve_key`, in its insertion order; `observed`
      is `str(None)` until a type mismatch fills it in. */
  function Placeholders(key: string, e: Expected, observed: string, extra: string): seq<(string, string)> {
    [("f:key", key), ("f:extype", ExpectedRepr(e)), ("f:type", observed), ("f:extra", extra)]
  }

  function Render(m: Message): string {
    FormatMessage(m.template, m.fmap)
  }

  function MissingMessage(val: Validator, key: string, e: Expected, extra: string): Message {
    Message(val.requiredTemplate, Placeholders(key, e, "None", extra))
  }

  function MistypedMessage(val: Validator, key: string, e: Expected, v: Value, extra: string): Message {
    Message(val.expectedTemplate, Placeholders(key, e, TypeRepr(TypeOf(v)), extra))
  }

  /** `retrieve_key(target, key, expected, required, fallback, extra)`. */
  function RetrieveWith(val: Validator, target: Value, key: string, e: Expected,
                        required: bool, fallback: Value, extra: string): (r: Result<Value, Failure>)
    // success exactly when the target is a dict, and the key is either
    // present with an accepted value or absent and optional
    ensures r.Ok? <==> (target.JObject? &&
      (match Lookup(target.entries, key)
       case Some(v) => Accepts(val.rule, v, e)
       case None => !required))
    // the value is returned as stored, no coercion; an absent key gives the fallback
    ensures r.Ok? ==> r.value == (match Lookup(target.entries, key)
                                  case Some(v) => v
                                  case None => fallback)
    // a non-dict target fails in the subscript itself
    ensures !target.JObject? ==> r == Err(Builtin(Subscript))
    ensures target.JObject? && Lookup(target.entries, key).None? && required ==>
      r == Err(KeyError(MissingMessage(val, key, e, extra)))
    ensures target.JObject? && Lookup(target.entries, key).Some? && r.Err? ==>
      r == Err(TypeError(MistypedMessage(val, key, e, Lookup(target.entries, key).value, extra)))
  {
    match target
    case JObject(entries) =>
      (match Lookup(entries, key)
       case None =>
         if required then Err(KeyError(MissingMessage(val, key, e, extra))) else Ok(fallback)
       case Some(v) =>
         if !Accepts(val.rule, v, e) then Err(TypeError(MistypedMessage(val, key, e, v, extra)))
         else Ok(v))
    case _ => Err(Builtin(Subscript))
  }

  /** `retrieve_key` of src/PrintingPress/internals.py. */
  function Retrieve(target: Value, key: string, e: Expected, required: bool, fallback: Value, extra: string): Result<Value, Failure> {
    RetrieveWith(Current, target, key, e, required, fallback, extra)
  }

  /** `Internals.retrieve_key` of PrintingPress/printingpress.py. */
  function LegacyRetrieve(target: Value, key: string, t: PyType, required: bool, fallback: Value, extra: string): Result<Value, Failure> {
    RetrieveWith(Legacy, target, key, One(t), required, fallback, extra)
  }

  /** A bool where an int is expected passes the current validator and is
      rejected by the legacy one. */
  lemma BoolAgainstInt(key: string, b: bool, extra: string)
    ensures Retrieve(JObject([(key, JBool(b))]), key, One(Int), true, JNone, extra) == Ok(JBool(b))
    ensures LegacyRetrieve(JObject([(key, JBool(b))]), key, Int, true, JNone, extra).Err?
    ensures LegacyRetrieve(JObject([(key, JBool(b))]), key, Int, true, JNone, extra).error.TypeError?
  {
    assert Lookup([(key, JBool(b))], key) == Some(JBool(b));
  }

  /** The legacy validator is stricter: whatever it accepts the current one
      accepts with the same value, and the two disagree on a value only when
      it is a bool checked against `int`. */
  lemma LegacyIsStricter(target: Value, key: string, t: PyType, required: bool, fallback: Value, extra: string)
    ensures LegacyRetrieve(target, key, t, required, fallback, extra).Ok? ==>
      Retrieve(target, key, One(t), required, fallback, extra) == LegacyRetrieve(target, key, t, required, fallback, extra)
    ensures Retrieve(target, key, One(t), required, fallback, extra).Ok? && LegacyRetrieve(target, key, t, required, fallback, extra).Err? ==>
      t == Int && Lookup(target.entries, key).Some? && Lookup(target.entries, key).value.JBool?
  {
  }

  /** A template `a + pat + b` whose fixed parts hold no colon becomes
      `a + key + b` for a colon-free key when the first pair replaces the
      placeholder `pat` by the key: every later placeholder holds a colon the
      message no longer has. */
  lemma {:induction false} FormatKeyTemplate(a: string, pat: string, b: string, key: string, rest: seq<(string, string)>)
    requires ':' in pat
    requires ':' !in a && ':' !in b && ':' !in key
    requires |a| > 0 ==> a[|a| - 1] !in pat
    requires forall i :: 0 <= i < |rest| ==> ':' in rest[i].0
    ensures FormatMessage(a + pat + b, [(pat, key)] + rest) == a + key + b
  {
    var fmap := [(pat, key)] + rest;
    assert fmap[0] == (pat, key) && fmap[1..] == rest;
    ReplaceBetween(a, pat, b, key, ':');
    assert ':' !in a + key + b;
    ColonFreeUnchanged(a + key + b, rest);
  }

  /** A required-key template of the form `a` "f:key" `b`, with no colon in
      `a`, `b` or the key, renders as `a` key `b`. */
  lemma RequiredRendered(val: Validator, a: string, b: string, key: string, e: Expected, extra: string)
    requires val.requiredTemplate == a + "f:key" + b
    requires ':' !in a && ':' !in b && ':' !in key
    requires |a| > 0 ==> a[|a| - 1] !in "f:key"
    ensures Render(MissingMessage(val, key, e, extra)) == a + key + b
  {
    var fmap := Placeholders(key, e, "None", extra);
    assert fmap == [("f:key", key)] + fmap[1..];
    assert forall i :: 0 <= i < |fmap[1..]| ==> ':' in fmap[1..][i].0;
    FormatKeyTemplate(a, "f:key", b, key, fmap[1..]);
  }

  /** For a key without a colon (so no placeholder can appear in it) the
      required-key error reads exactly "key <key> is required"; the caller's
      `extra` context never shows, because the template does not mention it. */
  lemma MissingMessageCurrent(key: string, e: Expected, extra: string)
    requires ':' !in key
    ensures Render(MissingMessage(Current, key, e, extra)) == "key " + key + " is required"
  {
    TemplateParts();
    RequiredRendered(Current, "key ", " is required", key, e, extra);
  }

  /** The legacy required-key error reads "<key> is required". */
  lemma MissingMessageLegacy(key: string, e: Expected, extra: string)
    requires ':' !in key
    ensures Render(MissingMessage(Legacy, key, e, extra)) == key + " is required"
  {
    TemplateParts();
    RequiredRendered(Legacy, "", " is required", key, e, extra);
    EmptyPrefix(key);
  }

  /** The two required-key templates around their one placeholder. */
  lemma TemplateParts()
    ensures Current.requiredTemplate == "key " + "f:key" + " is required"
    ensures Legacy.requiredTemplate == "" + "f:key" + " is required"
    ensures ':' !in "key " && ':' !in " is required" && ' ' !in "f:key"
  {
  }

  lemma EmptyPrefix(s: string)
    ensures "" + s == s
  {
  }

  /** Every placeholder contains a colon, so a colon-free message is left alone. */
  lemma {:induction false} ColonFreeUnchanged(m: string, fmap: seq<(string, string)>)
    requires ':' !in m
    requires forall i :: 0 <= i < |fmap| ==> ':' in fmap[i].0
    ensures FormatMessage(m, fmap) == m
  {
    forall i | 0 <= i < |fmap|
      ensures |fmap[i].0| > 0 && !Occurs(m, fmap[i].0)
    {
      MissingCharNoOccurrence(m, fmap[i].0, ':');
    }
    FormatMessageAbsent(m, fmap);
  }
}
