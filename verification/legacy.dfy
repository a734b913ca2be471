/** The original single-file normaliser, `Placements.parse` of
    PrintingPress/printingpress.py, with its exact-type `retrieve_key`.
    It shares the table loop with the packaged version; what differs is
    the tables, the type rule, the post-processing and the finish of each
    area. */
module OriginalPlacements {
  import opened Wrappers
  import opened Values
  import opened Strings
  import opened Internals
  import opened Placements
  import opened PlacementProperties

  /** The original "image" table. */
  const OriginalImageSchema: seq<FieldSpec> := [
    FieldSpec("path", One(Str), true, JNone),
    FieldSpec("xy", One(List), true, JNone),
    FieldSpec("colour", One(List), false, JList([JInt(0), JInt(0), JInt(0)])),
    FieldSpec("opacity", One(Int), false, JInt(0)),
    FieldSpec("rotation", One(Int), false, JInt(0))
  ]

  /** The original "text" table. */
  const OriginalTextSchema: seq<FieldSpec> := [
    FieldSpec("path", One(Str), true, JNone),
    FieldSpec("xy", One(List), true, JNone),
    FieldSpec("wh", One(List), true, JNone),
    FieldSpec("colour", One(List), false, JList([JInt(0), JInt(0), JInt(0)])),
    FieldSpec("opacity", One(Int), false, JInt(0)),
    FieldSpec("rotation", One(Int), false, JInt(0)),
    FieldSpec("font_colour", One(List), false, JList([JInt(0), JInt(0), JInt(0)])),
    FieldSpec("font_size", One(Int), true, JNone),
    FieldSpec("font_variant", One(Str), false, JNone)
  ]

  /** The dict the original builds for an area: the table's values under
      their names, the path made absolute, and the decoded bitmap. */
  datatype OriginalArea =
    | OriginalImage(path: string, xy: Value, colour: Value, opacity: Value, rotation: Value, image: nat)
    | OriginalText(path: string, xy: Value, wh: Value, colour: Value, opacity: Value, rotation: Value,
                   fontColour: Value, fontSize: Value, fontVariant: Value, image: nat)

  /** The finish every area goes through: the absolute path must name a
      file, and that file must decode as an image. The branch that would
      build a font compares the kind with "font", which the kind check has
      already excluded, so text areas take this path too. */
  function OpenFile(area: string, path: Value, env: Env): Result<(string, nat), Failure> {
    match path
    case JStr(s) =>
      var p := env.absolute(s);
      if !env.isFile(p) then Err(Assertion(area, MissingFile))
      else (match env.decode(p)
            case None => Err(Undecodable(p))
            case Some(h) => Ok((p, h)))
    case _ => Err(Builtin(Attribute))
  }

  function OriginalImageArea(area: string, data: Value, env: Env): (r: Result<OriginalArea, Failure>)
    ensures r.Ok? ==> r.value.OriginalImage?
  {
    var vs :- ParseFields(Original, area, data, OriginalImageSchema);
    var file :- OpenFile(area, vs[0], env);
    Ok(OriginalImage(file.0, vs[1], vs[2], vs[3], vs[4], file.1))
  }

  function OriginalTextArea(area: string, data: Value, env: Env): (r: Result<OriginalArea, Failure>)
    ensures r.Ok? ==> r.value.OriginalText?
  {
    var vs :- ParseFields(Original, area, data, OriginalTextSchema);
    var file :- OpenFile(area, vs[0], env);
    Ok(OriginalText(file.0, vs[1], vs[2], vs[3], vs[4], vs[5], vs[6], vs[7], vs[8], file.1))
  }

  /** One area of the original: `type` (exactly a str) must be "image" or
      "text", then that kind's table, then the file. */
  function OriginalParseArea(area: string, data: Value, env: Env): (r: Result<OriginalArea, Failure>)
    ensures r.Ok? ==> (data.JObject? &&
      Lookup(data.entries, "type") == Some(JStr(if r.value.OriginalImage? then "image" else "text")))
  {
    var kind :- RetrieveWith(Legacy, data, "type", One(Str), true, JNone, AreaContext(area));
    if kind != JStr("image") && kind != JStr("text") then Err(Assertion(area, UnknownKind))
    else if kind == JStr("image") then OriginalImageArea(area, data, env)
    else OriginalTextArea(area, data, env)
  }

  /** The loop over every entry of the mapping, in order; there is no
      special `.meta` entry. */
  function OriginalParseAreas(entries: seq<(string, Value)>, env: Env): (r: Result<seq<(string, OriginalArea)>, Failure>)
    ensures r.Ok? ==> |r.value| == |entries|
    ensures r.Ok? ==> forall i :: 0 <= i < |entries| ==>
      r.value[i].0 == entries[i].0 && OriginalParseArea(entries[i].0, entries[i].1, env) == Ok(r.value[i].1)
    ensures r.Ok? <==> forall i :: 0 <= i < |entries| ==> OriginalParseArea(entries[i].0, entries[i].1, env).Ok?
  {
    if |entries| == 0 then Ok([])
    else
      match OriginalParseArea(entries[0].0, entries[0].1, env)
      case Err(e) => Err(e)
      case Ok(a) =>
        match OriginalParseAreas(entries[1..], env)
        case Err(e) =>
          assert forall i :: 1 <= i < |entries| ==> entries[i] == entries[1..][i - 1];
          Err(e)
        case Ok(rest) =>
          ConsNames(entries, a, rest);
          Ok([(entries[0].0, a)] + rest)
  }

  /** `Placements.parse` of PrintingPress/printingpress.py. */
  function OriginalParse(places: Value, env: Env): Result<seq<(string, OriginalArea)>, Failure> {
    match places
    case JObject(entries) => OriginalParseAreas(entries, env)
    case _ => Err(Assertion("", PlacesNotDict))
  }

  // ---------------------------------------------------------------------
  // Properties

  /** A record whose `type` is "image" goes through the image table. */
  lemma OriginalImageKind(area: string, data: Value, env: Env)
    requires data.JObject? && Lookup(data.entries, "type") == Some(JStr("image"))
    ensures OriginalParseArea(area, data, env) == OriginalImageArea(area, data, env)
  {
    assert RetrieveWith(Legacy, data, "type", One(Str), true, JNone, AreaContext(area)) == Ok(JStr("image"));
  }

  /** A record whose `type` is "text" goes through the text table. */
  lemma OriginalTextKind(area: string, data: Value, env: Env)
    requires data.JObject? && Lookup(data.entries, "type") == Some(JStr("text"))
    ensures OriginalParseArea(area, data, env) == OriginalTextArea(area, data, env)
  {
    assert RetrieveWith(Legacy, data, "type", One(Str), true, JNone, AreaContext(area)) == Ok(JStr("text"));
  }

  /** The original checks types exactly: a bool in an `int` row is a
      TypeError there, while the packaged version's `isinstance` lets it in. */
  lemma BoolRejectedInIntRow(area: string, data: Value, spec: FieldSpec, b: bool)
    requires data.JObject? && Lookup(data.entries, spec.name) == Some(JBool(b))
    requires spec.expected == One(Int)
    ensures CheckField(Original, area, data, spec).Err?
    ensures CheckField(Original, area, data, spec).error.TypeError?
    ensures RetrieveWith(Current, data, spec.name, spec.expected, spec.required, spec.fallback, AreaContext(area)) == Ok(JBool(b))
  {
  }

  /** The original has no length check on `xy` / `wh`: any list is kept as given. */
  lemma PairUnchecked(area: string, data: Value, spec: FieldSpec, items: seq<Value>)
    requires spec.name in {"xy", "wh"} && spec.expected == One(List)
    requires data.JObject? && Lookup(data.entries, spec.name) == Some(JList(items))
    ensures CheckField(Original, area, data, spec) == Ok(JList(items))
  {
    PlainName(spec.name);
  }

  /** Only the field named exactly `opacity` is clamped to 255; an opacity
      under any other name is left alone. */
  lemma OnlyExactOpacityClamped(area: string, name: string, v: Value)
    requires name != "opacity" && name != "rotation" && !IsColourField(name)
    ensures PostProcess(Original, area, name, v) == Ok(v)
    ensures PostProcess(Original, area, "opacity", v) == ClampAbove(v, 255)
  {
    assert !IsColourField("opacity") by {
      MissingCharNoOccurrence("opacity", "colour", 'u');
    }
  }

  /** Both kinds go through the image decoder: a successful area, text
      included, names an existing file that decodes, and keeps its bitmap. */
  lemma EveryAreaDecoded(area: string, data: Value, env: Env, a: OriginalArea)
    requires OriginalParseArea(area, data, env) == Ok(a)
    ensures data.JObject?
    ensures exists s :: Lookup(data.entries, "path") == Some(JStr(s)) && a.path == env.absolute(s)
    ensures env.isFile(a.path) && env.decode(a.path) == Some(a.image)
  {
    if a.OriginalImage? {
      OriginalImageKind(area, data, env);
      var vs := ParseFields(Original, area, data, OriginalImageSchema).value;
      PathRow(area, data, OriginalImageSchema, vs);
      assert OpenFile(area, vs[0], env) == Ok((a.path, a.image));
      OpenedFrom(area, vs[0].s, env, a.path, a.image);
    } else {
      OriginalTextKind(area, data, env);
      var vs := ParseFields(Original, area, data, OriginalTextSchema).value;
      PathRow(area, data, OriginalTextSchema, vs);
      assert OpenFile(area, vs[0], env) == Ok((a.path, a.image));
      OpenedFrom(area, vs[0].s, env, a.path, a.image);
    }
  }

  lemma OpenedFrom(area: string, s: string, env: Env, p: string, h: nat)
    requires OpenFile(area, JStr(s), env) == Ok((p, h))
    ensures p == env.absolute(s) && env.isFile(p) && env.decode(p) == Some(h)
  {
  }

  /** The `path` row of a table that passed holds the stored string. */
  lemma PathRow(area: string, data: Value, specs: seq<FieldSpec>, vs: seq<Value>)
    requires ParseFields(Original, area, data, specs) == Ok(vs)
    requires |specs| > 0 && specs[0] == FieldSpec("path", One(Str), true, JNone)
    ensures data.JObject? && vs[0].JStr? && Lookup(data.entries, "path") == Some(vs[0])
  {
    var raw := RawOf(data, specs[0]);
    CheckFieldOk(Original, area, data, specs[0], vs[0]);
    PathPlain(area, raw);
    assert Lookup(data.entries, "path").Some?;
  }

  lemma PathPlain(area: string, v: Value)
    ensures PostProcess(Original, area, "path", v) == Ok(v)
  {
    MissingCharNoOccurrence("path", "colour", 'c');
  }

  /** An original image area is the image table's values. */
  lemma OriginalImageFields(area: string, data: Value, env: Env, a: OriginalArea)
    requires OriginalParseArea(area, data, env) == Ok(a) && a.OriginalImage?
    ensures ParseFields(Original, area, data, OriginalImageSchema).Ok?
    ensures var vs := ParseFields(Original, area, data, OriginalImageSchema).value;
      a.xy == vs[1] && a.colour == vs[2] && a.opacity == vs[3] && a.rotation == vs[4]
  {
    OriginalImageKind(area, data, env);
    OriginalImageTable(area, data, env, a);
  }

  lemma OriginalImageTable(area: string, data: Value, env: Env, a: OriginalArea)
    requires OriginalImageArea(area, data, env) == Ok(a)
    ensures ParseFields(Original, area, data, OriginalImageSchema).Ok?
    ensures var vs := ParseFields(Original, area, data, OriginalImageSchema).value;
      a.xy == vs[1] && a.colour == vs[2] && a.opacity == vs[3] && a.rotation == vs[4]
  {
  }

  /** An original text area is the text table's values. */
  lemma OriginalTextFields(area: string, data: Value, env: Env, a: OriginalArea)
    requires OriginalParseArea(area, data, env) == Ok(a) && a.OriginalText?
    ensures ParseFields(Original, area, data, OriginalTextSchema).Ok?
    ensures var vs := ParseFields(Original, area, data, OriginalTextSchema).value;
      && a.xy == vs[1] && a.wh == vs[2] && a.colour == vs[3] && a.opacity == vs[4] && a.rotation == vs[5]
      && a.fontColour == vs[6] && a.fontSize == vs[7] && a.fontVariant == vs[8]
  {
    OriginalTextKind(area, data, env);
    OriginalTextTable(area, data, env, a);
  }

  lemma OriginalTextTable(area: string, data: Value, env: Env, a: OriginalArea)
    requires OriginalTextArea(area, data, env) == Ok(a)
    ensures ParseFields(Original, area, data, OriginalTextSchema).Ok?
    ensures var vs := ParseFields(Original, area, data, OriginalTextSchema).value;
      && a.xy == vs[1] && a.wh == vs[2] && a.colour == vs[3] && a.opacity == vs[4] && a.rotation == vs[5]
      && a.fontColour == vs[6] && a.fontSize == vs[7] && a.fontVariant == vs[8]
  {
  }

  /** `opacity` above 255 and `rotation` above 360 are clamped; absent, both
      are 0. */
  lemma OriginalClamps(area: string, data: Value, env: Env, a: OriginalArea)
    requires OriginalParseArea(area, data, env) == Ok(a)
    ensures data.JObject?
    ensures a.opacity == Clamped(OrDefault(data, "opacity", JInt(0)), 255)
    ensures a.rotation == Clamped(OrDefault(data, "rotation", JInt(0)), 360)
  {
    if a.OriginalImage? {
      OriginalImageFields(area, data, env, a);
      var vs := ParseFields(Original, area, data, OriginalImageSchema).value;
      OpacityRowOriginal(area, data, OriginalImageSchema, vs, 3);
      RotationRowOriginal(area, data, OriginalImageSchema, vs, 4);
    } else {
      OriginalTextFields(area, data, env, a);
      var vs := ParseFields(Original, area, data, OriginalTextSchema).value;
      OpacityRowOriginal(area, data, OriginalTextSchema, vs, 4);
      RotationRowOriginal(area, data, OriginalTextSchema, vs, 5);
    }
  }

  lemma OpacityRowOriginal(area: string, data: Value, specs: seq<FieldSpec>, vs: seq<Value>, i: nat)
    requires ParseFields(Original, area, data, specs) == Ok(vs)
    requires i < |specs| && specs[i] == FieldSpec("opacity", One(Int), false, JInt(0))
    ensures data.JObject? && vs[i] == Clamped(OrDefault(data, "opacity", JInt(0)), 255)
  {
    CheckFieldOk(Original, area, data, specs[i], vs[i]);
    OpacityPost(area, RawOf(data, specs[i]));
  }

  lemma RotationRowOriginal(area: string, data: Value, specs: seq<FieldSpec>, vs: seq<Value>, i: nat)
    requires ParseFields(Original, area, data, specs) == Ok(vs)
    requires i < |specs| && specs[i] == FieldSpec("rotation", One(Int), false, JInt(0))
    ensures data.JObject? && vs[i] == Clamped(OrDefault(data, "rotation", JInt(0)), 360)
  {
    CheckFieldOk(Original, area, data, specs[i], vs[i]);
    RotationPost(area, RawOf(data, specs[i]));
  }

  lemma OpacityPost(area: string, v: Value)
    requires v.JInt?
    ensures PostProcess(Original, area, "opacity", v) == Ok(Clamped(v, 255))
  {
    MissingCharNoOccurrence("opacity", "colour", 'u');
  }

  lemma RotationPost(area: string, v: Value)
    requires v.JInt?
    ensures PostProcess(Original, area, "rotation", v) == Ok(Clamped(v, 360))
  {
    MissingCharNoOccurrence("rotation", "colour", 'u');
  }

  /** `colour` (and a text area's `font_colour`) is three values below 256,
      as given or, when absent, black. */
  lemma OriginalColours(area: string, data: Value, env: Env, a: OriginalArea)
    requires OriginalParseArea(area, data, env) == Ok(a)
    ensures data.JObject?
    ensures IsRgb(a.colour) && a.colour == OrDefault(data, "colour", JList([JInt(0), JInt(0), JInt(0)]))
    ensures a.OriginalText? ==>
      IsRgb(a.fontColour) && a.fontColour == OrDefault(data, "font_colour", JList([JInt(0), JInt(0), JInt(0)]))
  {
    if a.OriginalImage? {
      OriginalImageFields(area, data, env, a);
      var vs := ParseFields(Original, area, data, OriginalImageSchema).value;
      ColourRow(area, data, OriginalImageSchema, vs, 2);
    } else {
      OriginalTextFields(area, data, env, a);
      var vs := ParseFields(Original, area, data, OriginalTextSchema).value;
      ColourRow(area, data, OriginalTextSchema, vs, 3);
      ColourRow(area, data, OriginalTextSchema, vs, 6);
    }
  }

  lemma ColourRow(area: string, data: Value, specs: seq<FieldSpec>, vs: seq<Value>, i: nat)
    requires ParseFields(Original, area, data, specs) == Ok(vs)
    requires i < |specs| && specs[i].name in {"colour", "font_colour"} && specs[i].expected == One(List)
    requires specs[i].fallback == JList([JInt(0), JInt(0), JInt(0)])
    ensures data.JObject?
    ensures IsRgb(vs[i]) && vs[i] == OrDefault(data, specs[i].name, specs[i].fallback)
  {
    var raw := RawOf(data, specs[i]);
    CheckFieldOk(Original, area, data, specs[i], vs[i]);
    ColourPost(area, specs[i].name, raw);
    assert raw.JList?;
  }

  lemma ColourPost(area: string, name: string, v: Value)
    requires name in {"colour", "font_colour"}
    ensures PostProcess(Original, area, name, v).Ok? ==> PostProcess(Original, area, name, v) == Ok(v) && RgbCheck(area, v).Ok?
  {
    var k := |name| - 6;
    assert name[k..k + 6] == "colour";
    OccursAt(name, "colour", k);
  }

  /** The original's loop also stops at the first area that fails, and
      that area's error is the error of the whole parse. */
  lemma {:induction false} OriginalAreasFirstFailure(entries: seq<(string, Value)>, env: Env, k: nat)
    requires k < |entries|
    requires forall j :: 0 <= j < k ==> OriginalParseArea(entries[j].0, entries[j].1, env).Ok?
    requires OriginalParseArea(entries[k].0, entries[k].1, env).Err?
    ensures OriginalParseAreas(entries, env) == Err(OriginalParseArea(entries[k].0, entries[k].1, env).error)
    decreases k
  {
    if k > 0 {
      forall j | 0 <= j < k - 1
        ensures OriginalParseArea(entries[1..][j].0, entries[1..][j].1, env).Ok?
      {
        assert entries[1..][j] == entries[j + 1];
      }
      assert entries[1..][k - 1] == entries[k];
      OriginalAreasFirstFailure(entries[1..], env, k - 1);
    }
  }

  /** The original finish accepts a path exactly when it is a str whose
      absolute form names an existing file that decodes as an image. */
  lemma OpenFileAccepted(area: string, path: Value, env: Env)
    ensures OpenFile(area, path, env).Ok? <==>
      path.JStr? && env.isFile(env.absolute(path.s)) && env.decode(env.absolute(path.s)).Some?
  {
  }

  /** An original "image" record is accepted exactly when its table passes
      and its path names an existing file that decodes. */
  lemma OriginalImageAccepted(area: string, data: Value, env: Env)
    requires data.JObject? && Lookup(data.entries, "type") == Some(JStr("image"))
    ensures OriginalParseArea(area, data, env).Ok? <==>
      && ParseFields(Original, area, data, OriginalImageSchema).Ok?
      && var p := ParseFields(Original, area, data, OriginalImageSchema).value[0];
        p.JStr? && env.isFile(env.absolute(p.s)) && env.decode(env.absolute(p.s)).Some?
  {
    OriginalImageKind(area, data, env);
    var t := ParseFields(Original, area, data, OriginalImageSchema);
    if t.Ok? {
      OpenFileAccepted(area, t.value[0], env);
    }
  }

  /** An original "text" record is accepted under the same condition, since
      it is opened as an image too. */
  lemma OriginalTextAccepted(area: string, data: Value, env: Env)
    requires data.JObject? && Lookup(data.entries, "type") == Some(JStr("text"))
    ensures OriginalParseArea(area, data, env).Ok? <==>
      && ParseFields(Original, area, data, OriginalTextSchema).Ok?
      && var p := ParseFields(Original, area, data, OriginalTextSchema).value[0];
        p.JStr? && env.isFile(env.absolute(p.s)) && env.decode(env.absolute(p.s)).Some?
  {
    OriginalTextKind(area, data, env);
    var t := ParseFields(Original, area, data, OriginalTextSchema);
    if t.Ok? {
      OpenFileAccepted(area, t.value[0], env);
    }
  }

  function OriginalNames(areas: seq<(string, OriginalArea)>): seq<string> {
    if |areas| == 0 then [] else [areas[0].0] + OriginalNames(areas[1..])
  }

  /** Every entry is an area, `.meta` included, in input order. */
  lemma EveryEntryAnArea(places: Value, env: Env, areas: seq<(string, OriginalArea)>)
    requires OriginalParse(places, env) == Ok(areas)
    ensures places.JObject?
    ensures OriginalNames(areas) == KeysOf(places.entries)
  {
    OriginalNamesMatch(places.entries, areas, env);
  }

  lemma {:induction false} OriginalNamesMatch(entries: seq<(string, Value)>, areas: seq<(string, OriginalArea)>, env: Env)
    requires OriginalParseAreas(entries, env) == Ok(areas)
    ensures OriginalNames(areas) == KeysOf(entries)
  {
    if |entries| > 0 {
      var a := OriginalParseArea(entries[0].0, entries[0].1, env).value;
      var rest := OriginalParseAreas(entries[1..], env).value;
      assert areas == [(entries[0].0, a)] + rest;
      assert areas[1..] == rest;
      OriginalNamesMatch(entries[1..], rest, env);
    }
  }
}
