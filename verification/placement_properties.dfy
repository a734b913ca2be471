/** What `Placements.parse` (src/PrintingPress/placements.py) guarantees about
    the areas it builds: kinds, clamping, colour and pair checks, filters, and
    the `.meta` pass-through. */
module PlacementProperties {
  import opened Wrappers
  import opened Values
  import opened Strings
  import opened Internals
  import opened Placements

  /** The value a table row works on: the stored value, or the fallback. */
  function RawOf(data: Value, spec: FieldSpec): Value
    requires data.JObject?
  {
    match Lookup(data.entries, spec.name)
    case Some(v) => v
    case None => spec.fallback
  }

  /** A successful row came from a dict, whose stored value passed the type
      check (or was absent and optional), and post-processing produced the result. */
  lemma CheckFieldOk(ed: Edition, area: string, data: Value, spec: FieldSpec, w: Value)
    requires CheckField(ed, area, data, spec) == Ok(w)
    ensures data.JObject?
    ensures Lookup(data.entries, spec.name).Some? ==> Accepts(ValidatorOf(ed).rule, RawOf(data, spec), spec.expected)
    ensures Lookup(data.entries, spec.name).None? ==> !spec.required
    ensures PostProcess(ed, area, spec.name, RawOf(data, spec)) == Ok(w)
  {
  }

  /** Which names the colour and opacity post-processing applies to. */
  lemma PlainName(name: string)
    requires name in {"rotation", "xy", "wh", "text", "filter", "filter_data"}
    ensures !IsColourField(name) && !IsOpacityField(Package, name)
  {
    assert 'u' !in name && 'p' !in name;
    MissingCharNoOccurrence(name, "colour", 'u');
    MissingCharNoOccurrence(name, "opacity", 'p');
  }

  lemma OpacityName(name: string)
    requires name in {"opacity", "bg_opacity", "font_opacity"}
    ensures !IsColourField(name) && IsOpacityField(Package, name)
  {
    var pre := name[..|name| - 7];
    assert name == pre + "opacity" && 'u' !in pre;
    SuffixOnly(pre, "opacity", "colour", 'u');
  }

  lemma ColourName(name: string)
    requires name in {"bg_colour", "font_colour"}
    ensures IsColourField(name) && !IsOpacityField(Package, name)
  {
    var pre := name[..|name| - 6];
    assert name == pre + "colour" && 'p' !in pre;
    SuffixOnly(pre, "colour", "opacity", 'p');
  }

  /** A name ending in `suffix` contains it, and does not contain a pattern
      holding a character that neither part has. */
  lemma SuffixOnly(pre: string, suffix: string, other: string, c: char)
    requires c in other && c !in pre && c !in suffix
    ensures Occurs(pre + suffix, suffix) && !Occurs(pre + suffix, other)
  {
    assert (pre + suffix)[|pre|..|pre| + |suffix|] == suffix;
    OccursAt(pre + suffix, suffix, |pre|);
    MissingCharNoOccurrence(pre + suffix, other, c);
  }

  /** `rotation` above 360 becomes 360; everything else (negatives included)
      is kept. */
  lemma PostRotation(area: string, v: Value)
    requires IsInstance(v, One(Int))
    ensures PostProcess(Package, area, "rotation", v) == Ok(Clamped(v, 360))
  {
    PlainName("rotation");
  }

  /** An `*opacity*` field above 255 becomes 255. */
  lemma PostOpacity(area: string, name: string, v: Value)
    requires name in {"opacity", "bg_opacity", "font_opacity"}
    requires IsInstance(v, One(Int))
    ensures PostProcess(Package, area, name, v) == Ok(Clamped(v, 255))
  {
    OpacityName(name);
  }

  /** A `*colour*` field passes through unchanged once `rgb_list_check` holds. */
  lemma PostColour(area: string, name: string, v: Value)
    requires name in {"bg_colour", "font_colour"}
    ensures PostProcess(Package, area, name, v).Ok? ==> PostProcess(Package, area, name, v) == Ok(v) && RgbCheck(area, v).Ok?
  {
    ColourName(name);
  }

  /** `xy` / `wh` pass through unchanged when `len` is 2. */
  lemma PostPair(area: string, name: string, v: Value)
    requires name in {"xy", "wh"}
    ensures PostProcess(Package, area, name, v).Ok? ==> PostProcess(Package, area, name, v) == Ok(v) && PyLen(v) == Some(2)
    ensures PyLen(v).None? ==> PostProcess(Package, area, name, v) == Err(Builtin(Len))
  {
    PlainName(name);
  }

  lemma PostPlain(area: string, name: string, v: Value)
    requires name in {"text", "filter", "filter_data"}
    ensures PostProcess(Package, area, name, v) == Ok(v)
  {
    PlainName(name);
  }

  /** The bitmap comes from where `path` points: an in-memory image is used
      as it is, a string names an existing file that decoded to the bitmap. */
  predicate ImageOpened(given: Value, env: Env, a: ImageArea) {
    match given
    case JImage(h) => a.path == InMemory(h) && a.image == h
    case JStr(s) =>
      && a.path == FromFile(env.absolute(s)) && env.isFile(env.absolute(s))
      && env.decode(env.absolute(s)) == Some(a.image)
    case _ => false
  }

  /** The font file is the absolute form of `path`, exists and is a font;
      the font is built from it at `font_size`, which is positive, with the
      variant applied when the font has it. */
  predicate FontOpened(given: Value, env: Env, t: TextArea) {
    && given.JStr? && t.path == env.absolute(given.s) && env.isFile(t.path) && env.loadsFont(t.path)
    && PositiveSize(t.fontSize)
    && t.font.path == t.path && t.font.size == t.fontSize
    && t.font.variant == (if t.fontVariant.JStr? && env.hasVariant(t.path, t.fontVariant.s)
                          then Some(t.fontVariant.s) else None)
  }

  /** `path` is not post-processed in the table loop. */
  lemma PostPath(area: string, v: Value)
    ensures PostProcess(Package, area, "path", v) == Ok(v)
  {
    MissingCharNoOccurrence("path", "colour", 'u');
    MissingCharNoOccurrence("path", "opacity", 'o');
  }

  /** The `path` row of a table that passed holds the stored value. */
  lemma PackagePathRow(area: string, data: Value, specs: seq<FieldSpec>, vs: seq<Value>, i: nat)
    requires ParseFields(Package, area, data, specs) == Ok(vs)
    requires i < |specs| && specs[i].name == "path" && specs[i].required
    ensures data.JObject? && Lookup(data.entries, "path") == Some(vs[i])
  {
    CheckFieldOk(Package, area, data, specs[i], vs[i]);
    PostPath(area, RawOf(data, specs[i]));
  }

  /** An image area is the image table's values, with the bitmap opened from
      the stored `path` and the filter normalised. */
  lemma ImageFields(area: string, data: Value, env: Env, a: ImageArea)
    requires ParseArea(area, data, env) == Ok(Image(a))
    ensures ParseFields(Package, area, data, ImageSchema).Ok?
    ensures var vs := ParseFields(Package, area, data, ImageSchema).value;
      && data.JObject? && Lookup(data.entries, "path") == Some(vs[0]) && ImageOpened(vs[0], env, a)
      && a.xy == vs[1] && a.wh == vs[2] && a.filter == FilterOf(vs[3]) && a.filterData == vs[4]
      && a.opacity == vs[5] && a.rotation == vs[6] && a.beneath == vs[7]
      && (a.filter.Some? ==> FilterCheck(area, a.filter.value, vs[4]).Ok?)
  {
    ImageKind(area, data, env);
    ImageTable(area, data, env, a);
  }

  lemma ImageTable(area: string, data: Value, env: Env, a: ImageArea)
    requires ParseImage(area, data, env) == Ok(Image(a))
    ensures ParseFields(Package, area, data, ImageSchema).Ok?
    ensures var vs := ParseFields(Package, area, data, ImageSchema).value;
      && data.JObject? && Lookup(data.entries, "path") == Some(vs[0]) && ImageOpened(vs[0], env, a)
      && a.xy == vs[1] && a.wh == vs[2] && a.filter == FilterOf(vs[3]) && a.filterData == vs[4]
      && a.opacity == vs[5] && a.rotation == vs[6] && a.beneath == vs[7]
      && (a.filter.Some? ==> FilterCheck(area, a.filter.value, vs[4]).Ok?)
  {
    assert ParseFields(Package, area, data, ImageSchema).Ok?;
    var vs := ParseFields(Package, area, data, ImageSchema).value;
    PackagePathRow(area, data, ImageSchema, vs, 0);
    ImageFromFields(area, vs, env, a);
  }

  lemma ImageFromFields(area: string, vs: seq<Value>, env: Env, a: ImageArea)
    requires |vs| == 8 && ImageFrom(area, vs, env) == Ok(Image(a))
    ensures ImageOpened(vs[0], env, a)
    ensures && a.xy == vs[1] && a.wh == vs[2] && a.filter == FilterOf(vs[3]) && a.filterData == vs[4]
      && a.opacity == vs[5] && a.rotation == vs[6] && a.beneath == vs[7]
      && (a.filter.Some? ==> FilterCheck(area, a.filter.value, vs[4]).Ok?)
  {
  }

  /** A text area is the text table's values, with the font opened from the
      stored `path`. */
  lemma TextFields(area: string, data: Value, env: Env, t: TextArea)
    requires ParseArea(area, data, env) == Ok(Text(t))
    ensures ParseFields(Package, area, data, TextSchema).Ok?
    ensures var vs := ParseFields(Package, area, data, TextSchema).value;
      && data.JObject? && Lookup(data.entries, "path") == Some(vs[0]) && FontOpened(vs[0], env, t)
      && t.text == vs[1] && t.xy == vs[2] && t.wh == vs[3] && t.bgColour == vs[4] && t.bgOpacity == vs[5]
      && t.fontColour == vs[6] && t.fontSize == vs[7] && t.fontVariant == vs[8] && t.fontOpacity == vs[9]
      && t.fit == vs[10] && t.beneath == vs[11] && t.rotation == vs[12]
  {
    TextKind(area, data, env);
    TextTable(area, data, env, t);
  }

  lemma TextTable(area: string, data: Value, env: Env, t: TextArea)
    requires ParseText(area, data, env) == Ok(Text(t))
    ensures ParseFields(Package, area, data, TextSchema).Ok?
    ensures var vs := ParseFields(Package, area, data, TextSchema).value;
      && data.JObject? && Lookup(data.entries, "path") == Some(vs[0]) && FontOpened(vs[0], env, t)
      && t.text == vs[1] && t.xy == vs[2] && t.wh == vs[3] && t.bgColour == vs[4] && t.bgOpacity == vs[5]
      && t.fontColour == vs[6] && t.fontSize == vs[7] && t.fontVariant == vs[8] && t.fontOpacity == vs[9]
      && t.fit == vs[10] && t.beneath == vs[11] && t.rotation == vs[12]
  {
    assert ParseFields(Package, area, data, TextSchema).Ok?;
    var vs := ParseFields(Package, area, data, TextSchema).value;
    PackagePathRow(area, data, TextSchema, vs, 0);
    TextFromFields(area, vs, env, t);
  }

  lemma TextFromFields(area: string, vs: seq<Value>, env: Env, t: TextArea)
    requires |vs| == 13 && TextFrom(area, vs, env) == Ok(Text(t))
    ensures FontOpened(vs[0], env, t)
    ensures && t.text == vs[1] && t.xy == vs[2] && t.wh == vs[3] && t.bgColour == vs[4] && t.bgOpacity == vs[5]
      && t.fontColour == vs[6] && t.fontSize == vs[7] && t.fontVariant == vs[8] && t.fontOpacity == vs[9]
      && t.fit == vs[10] && t.beneath == vs[11] && t.rotation == vs[12]
  {
  }

  lemma UnknownKindFails(area: string, data: Value, env: Env, kind: string)
    requires data.JObject? && Lookup(data.entries, "type") == Some(JStr(kind))
    requires kind != "image" && kind != "text"
    ensures ParseArea(area, data, env) == Err(Assertion(area, UnknownKind))
  {
    var r := Retrieve(data, "type", One(Str), true, JNone, AreaContext(area));
    assert r == Ok(JStr(kind));
    assert JStr(kind) != JStr("image") && JStr(kind) != JStr("text");
  }

  /** An area record without `type` fails with "key type is required". */
  lemma MissingKindFails(area: string, data: Value, env: Env)
    requires data.JObject? && Lookup(data.entries, "type").None?
    ensures ParseArea(area, data, env).Err? && ParseArea(area, data, env).error.KeyError?
    ensures Render(ParseArea(area, data, env).error.message) == "key type is required"
  {
    var m := MissingMessage(Current, "type", One(Str), AreaContext(area));
    assert ParseArea(area, data, env) == Err(KeyError(m));
    KindRequired(AreaContext(area));
  }

  lemma KindRequired(extra: string)
    ensures Render(MissingMessage(Current, "type", One(Str), extra)) == "key type is required"
  {
    MissingMessageCurrent("type", One(Str), extra);
    TypeSpelled("type");
  }

  lemma TypeSpelled(k: string)
    requires k == "type"
    ensures "key " + k + " is required" == "key type is required"
  {
  }

  /** `rotation` above 360 becomes exactly 360, and is otherwise kept as
      given (negative values included); absent, it is 0. */
  lemma RotationClamped(area: string, data: Value, env: Env, a: Area)
    requires ParseArea(area, data, env) == Ok(a)
    ensures data.JObject?
    ensures (if a.Image? then a.img.rotation else a.txt.rotation)
            == Clamped(match Lookup(data.entries, "rotation") case Some(v) => v case None => JInt(0), 360)
  {
    if a.Image? {
      ImageFields(area, data, env, a.img);
      RotationRow(area, data, ImageSchema, ParseFields(Package, area, data, ImageSchema).value, 6);
    } else {
      TextFields(area, data, env, a.txt);
      RotationRow(area, data, TextSchema, ParseFields(Package, area, data, TextSchema).value, 12);
    }
  }

  /** Every opacity field above 255 becomes exactly 255 and is otherwise kept;
      absent, it is 255. */
  lemma OpacityClamped(area: string, data: Value, env: Env, a: Area)
    requires ParseArea(area, data, env) == Ok(a)
    ensures data.JObject?
    ensures a.Image? ==> a.img.opacity == Clamped(OrDefault(data, "opacity", JInt(255)), 255)
    ensures a.Text? ==> a.txt.bgOpacity == Clamped(OrDefault(data, "bg_opacity", JInt(255)), 255)
    ensures a.Text? ==> a.txt.fontOpacity == Clamped(OrDefault(data, "font_opacity", JInt(255)), 255)
  {
    if a.Image? {
      ImageFields(area, data, env, a.img);
      OpacityRow(area, data, ImageSchema, ParseFields(Package, area, data, ImageSchema).value, 5);
    } else {
      TextFields(area, data, env, a.txt);
      var vs := ParseFields(Package, area, data, TextSchema).value;
      OpacityRow(area, data, TextSchema, vs, 5);
      OpacityRow(area, data, TextSchema, vs, 9);
    }
  }

  /** An opacity row of any table holds the given or default int, clamped. */
  lemma OpacityRow(area: string, data: Value, specs: seq<FieldSpec>, vs: seq<Value>, i: nat)
    requires ParseFields(Package, area, data, specs) == Ok(vs)
    requires i < |specs| && specs[i].name in {"opacity", "bg_opacity", "font_opacity"}
    requires specs[i].expected == One(Int) && specs[i].fallback.JInt?
    ensures data.JObject? && vs[i] == Clamped(OrDefault(data, specs[i].name, specs[i].fallback), 255)
  {
    CheckFieldOk(Package, area, data, specs[i], vs[i]);
    PostOpacity(area, specs[i].name, RawOf(data, specs[i]));
  }

  /** A rotation row of any table holds the given or default int, clamped. */
  lemma RotationRow(area: string, data: Value, specs: seq<FieldSpec>, vs: seq<Value>, i: nat)
    requires ParseFields(Package, area, data, specs) == Ok(vs)
    requires i < |specs| && specs[i] == FieldSpec("rotation", One(Int), false, JInt(0))
    ensures data.JObject? && vs[i] == Clamped(OrDefault(data, "rotation", JInt(0)), 360)
  {
    CheckFieldOk(Package, area, data, specs[i], vs[i]);
    PostRotation(area, RawOf(data, specs[i]));
  }

  /** A row that is not post-processed holds the given or default value. */
  lemma PlainRow(area: string, data: Value, specs: seq<FieldSpec>, vs: seq<Value>, i: nat)
    requires ParseFields(Package, area, data, specs) == Ok(vs)
    requires i < |specs| && specs[i].name in {"text", "filter", "filter_data"}
    ensures data.JObject? && vs[i] == OrDefault(data, specs[i].name, specs[i].fallback)
    ensures Lookup(data.entries, specs[i].name).Some? ==> IsInstance(vs[i], specs[i].expected)
  {
    CheckFieldOk(Package, area, data, specs[i], vs[i]);
    PostPlain(area, specs[i].name, RawOf(data, specs[i]));
  }

  function OrDefault(data: Value, key: string, default: Value): Value
    requires data.JObject?
  {
    match Lookup(data.entries, key) case Some(v) => v case None => default
  }

  predicate IsPair(v: Value) {
    v.JList? && |v.items| == 2
  }

  /** `xy` and `wh` are lists of exactly two values in every area built, and
      they are the lists given. An image area's `wh` therefore must be present:
      its `None` fallback cannot pass `len`. */
  lemma PairsChecked(area: string, data: Value, env: Env, a: Area)
    requires ParseArea(area, data, env) == Ok(a)
    ensures data.JObject?
    ensures a.Image? ==> IsPair(a.img.xy) && IsPair(a.img.wh)
    ensures a.Image? ==> Lookup(data.entries, "wh") == Some(a.img.wh) && Lookup(data.entries, "xy") == Some(a.img.xy)
    ensures a.Text? ==> IsPair(a.txt.xy) && IsPair(a.txt.wh)
    ensures a.Text? ==> Lookup(data.entries, "wh") == Some(a.txt.wh) && Lookup(data.entries, "xy") == Some(a.txt.xy)
  {
    if a.Image? {
      ImageFields(area, data, env, a.img);
      ImagePairs(area, data, ParseFields(Package, area, data, ImageSchema).value);
    } else {
      TextFields(area, data, env, a.txt);
      TextPairs(area, data, ParseFields(Package, area, data, TextSchema).value);
    }
  }

  lemma ImagePairs(area: string, data: Value, vs: seq<Value>)
    requires ParseFields(Package, area, data, ImageSchema) == Ok(vs)
    ensures data.JObject?
    ensures IsPair(vs[1]) && Lookup(data.entries, "xy") == Some(vs[1])
    ensures IsPair(vs[2]) && Lookup(data.entries, "wh") == Some(vs[2])
  {
    PairRow(area, data, ImageSchema, vs, 1);
    PairRow(area, data, ImageSchema, vs, 2);
  }

  lemma TextPairs(area: string, data: Value, vs: seq<Value>)
    requires ParseFields(Package, area, data, TextSchema) == Ok(vs)
    ensures data.JObject?
    ensures IsPair(vs[2]) && Lookup(data.entries, "xy") == Some(vs[2])
    ensures IsPair(vs[3]) && Lookup(data.entries, "wh") == Some(vs[3])
  {
    PairRow(area, data, TextSchema, vs, 2);
    PairRow(area, data, TextSchema, vs, 3);
  }

  /** The `xy` or `wh` row of a table that passed. */
  lemma PairRow(area: string, data: Value, specs: seq<FieldSpec>, vs: seq<Value>, i: nat)
    requires ParseFields(Package, area, data, specs) == Ok(vs)
    requires i < |specs| && specs[i].name in {"xy", "wh"}
    requires specs[i].expected == One(List) && specs[i].fallback == JNone
    ensures data.JObject?
    ensures IsPair(vs[i]) && Lookup(data.entries, specs[i].name) == Some(vs[i])
  {
    var raw := RawOf(data, specs[i]);
    CheckFieldOk(Package, area, data, specs[i], vs[i]);
    PostPair(area, specs[i].name, raw);
    assert PyLen(raw) == Some(2);
    assert Lookup(data.entries, specs[i].name).Some?;
    assert IsInstance(raw, One(List));
  }

  /** An image record whose first two rows pass but that has no `wh` fails
      in `len(None)`. */
  lemma ImageWithoutSize(area: string, data: Value, env: Env)
    requires data.JObject? && Lookup(data.entries, "type") == Some(JStr("image"))
    requires forall j :: 0 <= j < 2 ==> CheckField(Package, area, data, ImageSchema[j]).Ok?
    requires Lookup(data.entries, "wh").None?
    ensures ParseArea(area, data, env) == Err(Builtin(Len))
  {
    ImageRowsWithoutSize(area, data);
    assert ParseImage(area, data, env) == Err(Builtin(Len));
    ImageKind(area, data, env);
  }

  /** A record whose `type` is "image" goes through the image table. */
  lemma ImageKind(area: string, data: Value, env: Env)
    requires data.JObject? && Lookup(data.entries, "type") == Some(JStr("image"))
    ensures ParseArea(area, data, env) == ParseImage(area, data, env)
  {
    assert Retrieve(data, "type", One(Str), true, JNone, AreaContext(area)) == Ok(JStr("image"));
  }

  lemma TextKind(area: string, data: Value, env: Env)
    requires data.JObject? && Lookup(data.entries, "type") == Some(JStr("text"))
    ensures ParseArea(area, data, env) == ParseText(area, data, env)
  {
    assert Retrieve(data, "type", One(Str), true, JNone, AreaContext(area)) == Ok(JStr("text"));
  }

  lemma ImageRowsWithoutSize(area: string, data: Value)
    requires data.JObject?
    requires forall j :: 0 <= j < 2 ==> CheckField(Package, area, data, ImageSchema[j]).Ok?
    requires Lookup(data.entries, "wh").None?
    ensures ParseFields(Package, area, data, ImageSchema) == Err(Builtin(Len))
  {
    MissingPairFails(area, data, ImageSchema, 2);
  }

  /** An optional pair row without a value fails in `len(None)` once the rows
      before it have passed. */
  lemma MissingPairFails(area: string, data: Value, specs: seq<FieldSpec>, k: nat)
    requires data.JObject? && k < |specs|
    requires specs[k].name in {"xy", "wh"} && !specs[k].required && specs[k].fallback == JNone
    requires forall j :: 0 <= j < k ==> CheckField(Package, area, data, specs[j]).Ok?
    requires Lookup(data.entries, specs[k].name).None?
    ensures ParseFields(Package, area, data, specs) == Err(Builtin(Len))
  {
    assert CheckField(Package, area, data, specs[k]) == Err(Builtin(Len)) by {
      PostPair(area, specs[k].name, JNone);
    }
    FirstFailure(Package, area, data, specs, k, Builtin(Len));
  }

  /** The table loop stops at the first failing row, whatever follows it. */
  lemma {:induction false} FirstFailure(ed: Edition, area: string, data: Value, specs: seq<FieldSpec>, k: nat, e: Failure)
    requires k < |specs|
    requires forall j :: 0 <= j < k ==> CheckField(ed, area, data, specs[j]).Ok?
    requires CheckField(ed, area, data, specs[k]) == Err(e)
    ensures ParseFields(ed, area, data, specs) == Err(e)
    decreases k
  {
    if k > 0 {
      forall j | 0 <= j < k - 1
        ensures CheckField(ed, area, data, specs[1..][j]).Ok?
      {
        assert specs[1..][j] == specs[j + 1];
      }
      assert specs[1..][k - 1] == specs[k];
      FirstFailure(ed, area, data, specs[1..], k - 1, e);
      FailureAfterPass(ed, area, data, specs, e);
    }
  }

  /** Once the first row passes, the loop's error is the rest's error. */
  lemma FailureAfterPass(ed: Edition, area: string, data: Value, specs: seq<FieldSpec>, e: Failure)
    requires |specs| > 0 && CheckField(ed, area, data, specs[0]).Ok?
    requires ParseFields(ed, area, data, specs[1..]) == Err(e)
    ensures ParseFields(ed, area, data, specs) == Err(e)
  {
  }

  /** The area loop stops at the first area that fails, whatever follows it:
      that area's error is the error of the whole parse. */
  lemma {:induction false} AreasFirstFailure(entries: seq<(string, Value)>, env: Env, k: nat)
    requires k < |entries|
    requires forall j :: 0 <= j < k ==> ParseArea(entries[j].0, entries[j].1, env).Ok?
    requires ParseArea(entries[k].0, entries[k].1, env).Err?
    ensures ParseAreas(entries, env) == Err(ParseArea(entries[k].0, entries[k].1, env).error)
    decreases k
  {
    if k > 0 {
      forall j | 0 <= j < k - 1
        ensures ParseArea(entries[1..][j].0, entries[1..][j].1, env).Ok?
      {
        assert entries[1..][j] == entries[j + 1];
      }
      assert entries[1..][k - 1] == entries[k];
      AreasFirstFailure(entries[1..], env, k - 1);
    }
  }

  /** The image finish accepts the table's values exactly when the source
      opens (an in-memory image, or a path naming an existing file that
      decodes) and a kept filter's data passes `filter_list_check`. */
  lemma ImageFromAccepted(area: string, vs: seq<Value>, env: Env)
    requires |vs| == 8
    ensures ImageFrom(area, vs, env).Ok? <==>
      && (vs[0].JImage? || (vs[0].JStr? && env.isFile(env.absolute(vs[0].s)) && env.decode(env.absolute(vs[0].s)).Some?))
      && (FilterOf(vs[3]).Some? ==> FilterCheck(area, FilterOf(vs[3]).value, vs[4]).Ok?)
  {
  }

  /** An "image" record is accepted exactly when its table passes, its
      source opens and a kept filter's data is valid. */
  lemma ImageAccepted(area: string, data: Value, env: Env)
    requires data.JObject? && Lookup(data.entries, "type") == Some(JStr("image"))
    ensures ParseArea(area, data, env).Ok? <==>
      && ParseFields(Package, area, data, ImageSchema).Ok?
      && var vs := ParseFields(Package, area, data, ImageSchema).value;
        && (vs[0].JImage? || (vs[0].JStr? && env.isFile(env.absolute(vs[0].s)) && env.decode(env.absolute(vs[0].s)).Some?))
        && (FilterOf(vs[3]).Some? ==> FilterCheck(area, FilterOf(vs[3]).value, vs[4]).Ok?)
  {
    ImageKind(area, data, env);
    var t := ParseFields(Package, area, data, ImageSchema);
    if t.Ok? {
      ImageFromAccepted(area, t.value, env);
    }
  }

  /** The text finish accepts the table's values exactly when the absolute
      form of the path names an existing font file and the size is
      positive. */
  lemma TextFromAccepted(area: string, vs: seq<Value>, env: Env)
    requires |vs| == 13
    ensures TextFrom(area, vs, env).Ok? <==>
      vs[0].JStr? && env.isFile(env.absolute(vs[0].s)) && env.loadsFont(env.absolute(vs[0].s)) && PositiveSize(vs[7])
  {
  }

  /** A "text" record is accepted exactly when its table passes, its font
      file exists and is a font, and its `font_size` is positive. */
  lemma TextAccepted(area: string, data: Value, env: Env)
    requires data.JObject? && Lookup(data.entries, "type") == Some(JStr("text"))
    ensures ParseArea(area, data, env).Ok? <==>
      && ParseFields(Package, area, data, TextSchema).Ok?
      && var vs := ParseFields(Package, area, data, TextSchema).value;
        vs[0].JStr? && env.isFile(env.absolute(vs[0].s)) && env.loadsFont(env.absolute(vs[0].s)) && PositiveSize(vs[7])
  {
    TextKind(area, data, env);
    var t := ParseFields(Package, area, data, TextSchema);
    if t.Ok? {
      TextFromAccepted(area, t.value, env);
    }
  }

  predicate IsRgb(v: Value) {
    v.JList? && |v.items| == 3 && forall i :: 0 <= i < 3 ==> Below256(v.items[i])
  }

  /** Both colours of a text area are three values below 256, exactly as given. */
  lemma ColoursChecked(area: string, data: Value, env: Env, t: TextArea)
    requires ParseArea(area, data, env) == Ok(Text(t))
    ensures data.JObject?
    ensures IsRgb(t.bgColour) && t.bgColour == OrDefault(data, "bg_colour", JList([JInt(0), JInt(0), JInt(0)]))
    ensures IsRgb(t.fontColour) && t.fontColour == OrDefault(data, "font_colour", JList([JInt(255), JInt(255), JInt(255)]))
  {
    TextFields(area, data, env, t);
    var vs := ParseFields(Package, area, data, TextSchema).value;
    PackageColourRow(area, data, TextSchema, vs, 4);
    PackageColourRow(area, data, TextSchema, vs, 6);
  }

  lemma PackageColourRow(area: string, data: Value, specs: seq<FieldSpec>, vs: seq<Value>, i: nat)
    requires ParseFields(Package, area, data, specs) == Ok(vs)
    requires i < |specs| && specs[i].name in {"bg_colour", "font_colour"} && specs[i].expected == One(List)
    ensures data.JObject?
    ensures IsRgb(vs[i]) && vs[i] == OrDefault(data, specs[i].name, specs[i].fallback)
  {
    CheckFieldOk(Package, area, data, specs[i], vs[i]);
    PostColour(area, specs[i].name, RawOf(data, specs[i]));
  }

  /** A filter is kept only when it is exactly "gaussian_blur" or "box_blur"
      (absent, it is dropped); a kept filter has exactly one int parameter,
      while the parameters of a dropped filter are never looked at. */
  lemma FilterNormalised(area: string, data: Value, env: Env, a: ImageArea)
    requires ParseArea(area, data, env) == Ok(Image(a))
    ensures data.JObject?
    ensures a.filter == FilterOf(OrDefault(data, "filter", JNone))
    ensures a.filter.None? <==> OrDefault(data, "filter", JNone) != JStr("gaussian_blur") && OrDefault(data, "filter", JNone) != JStr("box_blur")
    ensures a.filter.Some? ==> a.filterData.JList? && |a.filterData.items| == 1 && IsInstance(a.filterData.items[0], One(Int))
  {
    ImageFields(area, data, env, a);
    FilterRows(area, data, ParseFields(Package, area, data, ImageSchema).value);
  }

  /** The data of a dropped filter is never looked at: whatever it is
      replaced by, the image finish succeeds or fails alike, and builds the
      same area apart from the data it carries. */
  lemma FilterDataIgnored(area: string, vs: seq<Value>, env: Env, d: Value)
    requires |vs| == 8 && FilterOf(vs[3]).None?
    ensures ImageFrom(area, vs[4 := d], env).Ok? <==> ImageFrom(area, vs, env).Ok?
    ensures ImageFrom(area, vs, env).Ok? ==>
      ImageFrom(area, vs[4 := d], env).value.img == ImageFrom(area, vs, env).value.img.(filterData := d)
    ensures ImageFrom(area, vs, env).Err? ==> ImageFrom(area, vs[4 := d], env) == ImageFrom(area, vs, env)
  {
  }

  lemma FilterRows(area: string, data: Value, vs: seq<Value>)
    requires ParseFields(Package, area, data, ImageSchema) == Ok(vs)
    ensures data.JObject?
    ensures vs[3] == OrDefault(data, "filter", JNone) && vs[4] == OrDefault(data, "filter_data", JList([]))
    ensures vs[4].JList?
  {
    PlainRow(area, data, ImageSchema, vs, 3);
    PlainRow(area, data, ImageSchema, vs, 4);
    ListOrDefault(data, "filter_data", vs[4], JList([]));
  }

  /** A value that is either a stored list instance or a list default is a list. */
  lemma ListOrDefault(data: Value, key: string, v: Value, default: Value)
    requires data.JObject? && v == OrDefault(data, key, default) && default.JList?
    requires Lookup(data.entries, key).Some? ==> IsInstance(v, One(List))
    ensures v.JList?
  {
  }

  /** The text is stored as given, without coercion. */
  lemma TextKept(area: string, data: Value, env: Env, t: TextArea)
    requires ParseArea(area, data, env) == Ok(Text(t))
    ensures data.JObject? && t.text.JStr? && Lookup(data.entries, "text") == Some(t.text)
  {
    TextFields(area, data, env, t);
    var vs := ParseFields(Package, area, data, TextSchema).value;
    TextOf(area, data, vs);
  }

  lemma TextOf(area: string, data: Value, vs: seq<Value>)
    requires ParseFields(Package, area, data, TextSchema) == Ok(vs)
    ensures data.JObject? && vs[1].JStr? && Lookup(data.entries, "text") == Some(vs[1])
  {
    PlainRow(area, data, TextSchema, vs, 1);
  }

  function Names(areas: seq<(string, Area)>): seq<string> {
    if |areas| == 0 then [] else [areas[0].0] + Names(areas[1..])
  }

  /** `.meta` is handed through untouched, and the areas are exactly the
      other entries, in input order. */
  lemma MetaAndOrder(places: Value, env: Env, p: Parsed)
    requires Parse(places, env) == Ok(p)
    ensures places.JObject?
    ensures p.meta == Lookup(places.entries, ".meta")
    ensures Names(p.areas) == KeysOf(Without(places.entries, ".meta"))
    ensures forall i :: 0 <= i < |p.areas| ==> p.areas[i].0 != ".meta"
  {
    var rest := Without(places.entries, ".meta");
    NamesMatch(rest, p.areas, env);
  }

  lemma {:induction false} NamesMatch(entries: seq<(string, Value)>, areas: seq<(string, Area)>, env: Env)
    requires ParseAreas(entries, env) == Ok(areas)
    ensures Names(areas) == KeysOf(entries)
  {
    if |entries| > 0 {
      var a := ParseArea(entries[0].0, entries[0].1, env).value;
      var rest := ParseAreas(entries[1..], env).value;
      assert areas == [(entries[0].0, a)] + rest;
      assert areas[1..] == rest;
      NamesMatch(entries[1..], rest, env);
    }
  }

  /** Anything but a dict is refused outright. */
  lemma NotADict(places: Value, env: Env)
    requires !places.JObject?
    ensures Parse(places, env) == Err(Assertion("", PlacesNotDict))
  {
  }
}
