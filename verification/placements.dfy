/** The table-driven placement normaliser of src/PrintingPress/placements.py:
    `rgb_list_check`, `filter_list_check`, the two schema tables and
    `Placements.parse`. */
module Placements {
  import opened Wrappers
  import opened Values
  import opened Strings
  import opened Internals

  /** The file system and the PIL calls the normaliser consults, as oracles. */
  datatype Env = Env(
    absolute: string -> string,         // `Path(p).absolute()`
    isFile: string -> bool,             // `Path.is_file()`
    decode: string -> Option<nat>,      // `Image.open(p).convert("RGBA")`, `None` when it raises
    loadsFont: string -> bool,          // FreeType reads the file as a font
    hasVariant: (string, string) -> bool) // `set_variation_by_name` succeeds for (font file, name)

  /** The two versions of the normaliser: the packaged one
      (src/PrintingPress/placements.py with src/PrintingPress/internals.py)
      and the original single-file one (PrintingPress/printingpress.py). */
  datatype Edition = Package | Original

  function ValidatorOf(ed: Edition): Validator {
    match ed
    case Package => Current
    case Original => Legacy
  }

  /** One row `[expected, required, fallback]` of a schema table. */
  datatype FieldSpec = FieldSpec(name: string, expected: Expected, required: bool, fallback: Value)

  /** The "image" table; its `type` and `image` rows have no payload and are
      filled in by other code, so they are not rows here. */
  const ImageSchema: seq<FieldSpec> := [
    FieldSpec("path", AnyOf([Str, PilImage]), true, JNone),
    FieldSpec("xy", One(List), true, JNone),
    FieldSpec("wh", One(List), false, JNone),
    FieldSpec("filter", One(Str), false, JNone),
    FieldSpec("filter_data", One(List), false, JList([])),
    FieldSpec("opacity", One(Int), false, JInt(255)),
    FieldSpec("rotation", One(Int), false, JInt(0)),
    FieldSpec("beneath", One(Bool), false, JBool(false))
  ]

  /** The "text" table, without its payload-free `type` and `font` rows. */
  const TextSchema: seq<FieldSpec> := [
    FieldSpec("path", One(Str), true, JNone),
    FieldSpec("text", One(Str), true, JNone),
    FieldSpec("xy", One(List), true, JNone),
    FieldSpec("wh", One(List), true, JNone),
    FieldSpec("bg_colour", One(List), false, JList([JInt(0), JInt(0), JInt(0)])),
    FieldSpec("bg_opacity", One(Int), false, JInt(255)),
    FieldSpec("font_colour", One(List), false, JList([JInt(255), JInt(255), JInt(255)])),
    FieldSpec("font_size", One(Int), true, JNone),
    FieldSpec("font_variant", One(Str), false, JNone),
    FieldSpec("font_opacity", One(Int), false, JInt(255)),
    FieldSpec("fit", One(Bool), false, JBool(false)),
    FieldSpec("beneath", One(Bool), false, JBool(false)),
    FieldSpec("rotation", One(Int), false, JInt(0))
  ]

  /** Where an image area's bitmap comes from. */
  datatype Source = FromFile(path: string) | InMemory(handle: nat)

  datatype Filter = GaussianBlur | BoxBlur

  /** A font handle: file, size and the variant that could be applied. */
  datatype Font = Font(path: string, size: Value, variant: Option<string>)

  /** The `ImageArea` namedtuple: raw values where the source keeps raw values. */
  datatype ImageArea = ImageArea(
    path: Source, xy: Value, wh: Value, filter: Option<Filter>, filterData: Value,
    opacity: Value, rotation: Value, beneath: Value, image: nat)

  /** The `TextArea` namedtuple. */
  datatype TextArea = TextArea(
    path: string, text: Value, xy: Value, wh: Value,
    bgColour: Value, bgOpacity: Value, fontColour: Value, fontSize: Value,
    fontVariant: Value, fontOpacity: Value, fit: Value, beneath: Value,
    rotation: Value, font: Font)

  datatype Area = Image(img: ImageArea) | Text(txt: TextArea)

  /** The result of `parse`: the `.meta` entry, if any, then the areas in order. */
  datatype Parsed = Parsed(meta: Option<Value>, areas: seq<(string, Area)>)

  /** `x < 256` succeeded and held. */
  predicate Below256(v: Value) {
    LessThan(v, 256) == Some(true)
  }

  /** The `for elem in target: assert elem < 256` loop: the first value that
      is not a number raises TypeError, the first one at or above 256 fails
      the assertion. */
  function AllBelow256(area: string, items: seq<Value>): (r: Result<(), Failure>)
    ensures r.Ok? <==> forall i :: 0 <= i < |items| ==> Below256(items[i])
    ensures r.Err? ==> r.error == Builtin(Compare) || r.error == Assertion(area, ColourRange)
  {
    if |items| == 0 then Ok(())
    else match LessThan(items[0], 256)
      case None => Err(Builtin(Compare))
      case Some(below) =>
        if !below then Err(Assertion(area, ColourRange))
        else
          var r := AllBelow256(area, items[1..]);
          assert forall i :: 1 <= i < |items| ==> items[i] == items[1..][i - 1];
          r
  }

  /** `rgb_list_check`: exactly three values, each below 256; there is no
      lower bound. */
  function RgbCheck(area: string, target: Value): (r: Result<(), Failure>)
    ensures target.JList? ==>
      (r.Ok? <==> |target.items| == 3 && forall i :: 0 <= i < 3 ==> Below256(target.items[i]))
    ensures target.JList? && |target.items| != 3 ==> r == Err(Assertion(area, ColourArity))
  {
    match PyLen(target)
    case None => Err(Builtin(Len))
    case Some(n) =>
      if n != 3 then Err(Assertion(area, ColourArity))
      else AllBelow256(area, PyIter(target).value)
  }

  /** `filter_list_check`: both filters take exactly one `int` (a bool counts). */
  function FilterCheck(area: string, f: Filter, target: Value): (r: Result<(), Failure>)
    ensures target.JList? ==>
      (r.Ok? <==> |target.items| == 1 && IsInstance(target.items[0], One(Int)))
    ensures target.JList? && |target.items| != 1 ==> r == Err(Assertion(area, FilterArity))
  {
    var mapping := [Int];  // filter_map[f] for both gaussian_blur and box_blur
    match PyLen(target)
    case None => Err(Builtin(Len))
    case Some(n) =>
      if |mapping| != n then Err(Assertion(area, FilterArity))
      else if !IsInstance(PyIter(target).value[0], One(mapping[0])) then Err(Assertion(area, FilterType))
      else Ok(())
  }

  /** The value after clamping: a number above `bound` becomes the int
      `bound`, anything else stays as it is (a bool is 0 or 1, so it is never
      above the bounds used here). */
  function Clamped(v: Value, bound: nat): Value {
    match v
    case JInt(i) => if i > bound then JInt(bound) else v
    case JBool(b) => if BoolAsInt(b) > bound then JInt(bound) else v
    case _ => v
  }

  /** `if x > bound: x = bound`, with Python's ordering rules. */
  function ClampAbove(v: Value, bound: nat): (r: Result<Value, Failure>)
    ensures IsInstance(v, One(Int)) ==> r == Ok(Clamped(v, bound))
  {
    match GreaterThan(v, bound)
    case None => Err(Builtin(Compare))
    case Some(above) => Ok(if above then JInt(bound) else v)
  }

  predicate IsColourField(name: string) {
    Occurs(name, "colour")
  }

  /** The packaged version clamps every field whose name contains "opacity";
      the original clamps only the field named exactly `opacity`. */
  predicate IsOpacityField(ed: Edition, name: string) {
    match ed
    case Package => Occurs(name, "opacity")
    case Original => name == "opacity"
  }

  /** Only the packaged version checks that `xy` / `wh` hold two values. */
  predicate IsPairField(ed: Edition, name: string) {
    ed == Package && (name == "xy" || name == "wh")
  }

  /** The per-field post-processing, in the source's order: colour check,
      rotation clamp, opacity clamp, then the two-value check of `xy`/`wh`.
      (The path is made absolute where the record is built.) */
  function PostProcess(ed: Edition, area: string, name: string, v: Value): Result<Value, Failure> {
    var _ :- if IsColourField(name) then RgbCheck(area, v) else Ok(());
    var v1 :- if name == "rotation" then ClampAbove(v, 360) else Ok(v);
    var v2 :- if IsOpacityField(ed, name) then ClampAbove(v1, 255) else Ok(v1);
    if IsPairField(ed, name) then
      match PyLen(v2)
      case None => Err(Builtin(Len))
      case Some(n) => if n != 2 then Err(Assertion(area, PairArity)) else Ok(v2)
    else Ok(v2)
  }

  /** The `extra` context string the normaliser hands to the validator. */
  function AreaContext(area: string): string {
    " (area " + area + ")"
  }

  /** One row of the table: retrieve, then post-process. */
  function CheckField(ed: Edition, area: string, data: Value, spec: FieldSpec): Result<Value, Failure> {
    var raw :- RetrieveWith(ValidatorOf(ed), data, spec.name, spec.expected, spec.required, spec.fallback, AreaContext(area));
    PostProcess(ed, area, spec.name, raw)
  }

  /** The loop over a schema table: the rows are processed in table order and
      the first failing row decides the error. */
  function ParseFields(ed: Edition, area: string, data: Value, specs: seq<FieldSpec>): (r: Result<seq<Value>, Failure>)
    ensures r.Ok? ==> |r.value| == |specs|
    ensures r.Ok? ==> forall i :: 0 <= i < |specs| ==> CheckField(ed, area, data, specs[i]) == Ok(r.value[i])
    ensures r.Ok? <==> forall i :: 0 <= i < |specs| ==> CheckField(ed, area, data, specs[i]).Ok?
  {
    if |specs| == 0 then Ok([])
    else
      match CheckField(ed, area, data, specs[0])
      case Err(e) => Err(e)
      case Ok(v) =>
        match ParseFields(ed, area, data, specs[1..])
        case Err(e) =>
          assert forall i :: 1 <= i < |specs| ==> specs[i] == specs[1..][i - 1];
          Err(e)
        case Ok(rest) =>
          Ok([v] + rest)
  }

  /** `str(filter) not in ["gaussian_blur", "box_blur"]` makes it `None`. */
  function FilterOf(v: Value): Option<Filter> {
    if v == JStr("gaussian_blur") then Some(GaussianBlur)
    else if v == JStr("box_blur") then Some(BoxBlur)
    else None
  }

  /** A NaN or positive-infinite colour component fails the range
      assertion, since it does not compare below 256; a negative-infinite one
      passes, as there is no lower bound. */
  lemma NonFiniteColour(area: string, x: Value, y: Value)
    requires LessThan(x, 256) == Some(true) && LessThan(y, 256) == Some(true)
    ensures RgbCheck(area, JList([JFloat(NaN), x, y])) == Err(Assertion(area, ColourRange))
    ensures RgbCheck(area, JList([JFloat(Infinite(false)), x, y])) == Err(Assertion(area, ColourRange))
    ensures RgbCheck(area, JList([JFloat(Infinite(true)), x, y])).Ok?
  {
    var items := [JFloat(NaN), x, y];
    assert items[1..] == [x, y];
  }

  /** The image-specific finish for the `path` value: an in-memory image is
      used as it is; a string path must name an existing file that decodes.
      Any other value reaches `.is_file()` and raises AttributeError, which
      the table's type check rules out. */
  function OpenImage(area: string, path: Value, env: Env): Result<(Source, nat), Failure> {
    match path
    case JImage(h) => Ok((InMemory(h), h))
    case JStr(s) =>
      var p := env.absolute(s);
      if !env.isFile(p) then Err(Assertion(area, MissingFile))
      else (match env.decode(p)
            case None => Err(Undecodable(p))
            case Some(h) => Ok((FromFile(p), h)))
    case _ => Err(Builtin(Attribute))
  }

  function ParseImage(area: string, data: Value, env: Env): (r: Result<Area, Failure>)
    ensures r.Ok? ==> r.value.Image?
  {
    var vs :- ParseFields(Package, area, data, ImageSchema);
    ImageFrom(area, vs, env)
  }

  /** The image finish over the table's values: open the source, normalise
      the filter and check a kept filter's data. */
  function ImageFrom(area: string, vs: seq<Value>, env: Env): (r: Result<Area, Failure>)
    requires |vs| == 8
    ensures r.Ok? ==> r.value.Image?
  {
    var src :- OpenImage(area, vs[0], env);
    var filter := FilterOf(vs[3]);
    var _ :- if filter.Some? then FilterCheck(area, filter.value, vs[4]) else Ok(());
    Ok(Image(ImageArea(src.0, vs[1], vs[2], filter, vs[4], vs[5], vs[6], vs[7], src.1)))
  }

  function ParseText(area: string, data: Value, env: Env): (r: Result<Area, Failure>)
    ensures r.Ok? ==> r.value.Text?
  {
    var vs :- ParseFields(Package, area, data, TextSchema);
    TextFrom(area, vs, env)
  }

  /** FreeType builds a font only at a positive size; the table admits any
      int instance, so `True` is size 1 and `False` size 0. */
  predicate PositiveSize(v: Value) {
    match v
    case JInt(i) => i > 0
    case JBool(b) => b
    case _ => false
  }

  /** The text finish over the table's values: the absolute path must name a
      file; the font is built from it at the given size, which fails for a
      size that is not positive or a file that is not a font, and the
      variant is applied when the font has it. */
  function TextFrom(area: string, vs: seq<Value>, env: Env): (r: Result<Area, Failure>)
    requires |vs| == 13
    ensures r.Ok? ==> r.value.Text?
  {
    var path :- (match vs[0] case JStr(s) => Ok(env.absolute(s)) case _ => Err(Builtin(Attribute)));
    if !env.isFile(path) then Err(Assertion(area, MissingFile))
    else if !PositiveSize(vs[7]) || !env.loadsFont(path) then Err(Unloadable(path))
    else
      var variant := match vs[8]
        case JStr(name) => if env.hasVariant(path, name) then Some(name) else None
        case _ => None;
      Ok(Text(TextArea(path, vs[1], vs[2], vs[3], vs[4], vs[5], vs[6], vs[7], vs[8], vs[9],
                       vs[10], vs[11], vs[12], Font(path, vs[7], variant))))
  }

  /** One area: `type` must be exactly "image" or "text", then that kind's table. */
  function ParseArea(area: string, data: Value, env: Env): (r: Result<Area, Failure>)
    ensures r.Ok? ==> data.JObject? && Lookup(data.entries, "type") == Some(JStr(if r.value.Image? then "image" else "text"))
  {
    var kind :- Retrieve(data, "type", One(Str), true, JNone, AreaContext(area));
    if kind != JStr("image") && kind != JStr("text") then Err(Assertion(area, UnknownKind))
    else if kind == JStr("image") then ParseImage(area, data, env)
    else ParseText(area, data, env)
  }

  /** The loop over the areas, in order; the first failing area decides. */
  function ParseAreas(entries: seq<(string, Value)>, env: Env): (r: Result<seq<(string, Area)>, Failure>)
    ensures r.Ok? ==> |r.value| == |entries|
    ensures r.Ok? ==> forall i :: 0 <= i < |entries| ==>
      r.value[i].0 == entries[i].0 && ParseArea(entries[i].0, entries[i].1, env) == Ok(r.value[i].1)
    ensures r.Ok? <==> forall i :: 0 <= i < |entries| ==> ParseArea(entries[i].0, entries[i].1, env).Ok?
  {
    if |entries| == 0 then Ok([])
    else
      match ParseArea(entries[0].0, entries[0].1, env)
      case Err(e) => Err(e)
      case Ok(a) =>
        match ParseAreas(entries[1..], env)
        case Err(e) =>
          assert forall i :: 1 <= i < |entries| ==> entries[i] == entries[1..][i - 1];
          Err(e)
        case Ok(rest) =>
          ConsNames(entries, a, rest);
          Ok([(entries[0].0, a)] + rest)
  }

  /** Putting the first entry's result in front of the results of the
      others keeps names and results lined up with the entries. */
  lemma ConsNames<A>(entries: seq<(string, Value)>, a: A, rest: seq<(string, A)>)
    requires |entries| > 0 && |rest| == |entries| - 1
    ensures var r := [(entries[0].0, a)] + rest;
      && r[0] == (entries[0].0, a)
      && forall i :: 1 <= i < |entries| ==> entries[i] == entries[1..][i - 1] && r[i] == rest[i - 1]
  {
  }

  /** The entries other than `key`, in order (`dict.pop(key)`): every other
      entry is kept, and a dict without `key` is left as it is. */
  function Without(entries: seq<(string, Value)>, key: string): (r: seq<(string, Value)>)
    ensures forall i :: 0 <= i < |r| ==> r[i].0 != key
    ensures forall e :: e in r <==> e in entries && e.0 != key
    ensures |r| <= |entries|
    ensures (forall i :: 0 <= i < |entries| ==> entries[i].0 != key) ==> r == entries
  {
    if |entries| == 0 then []
    else if entries[0].0 == key then Without(entries[1..], key)
    else [entries[0]] + Without(entries[1..], key)
  }

  /** Removing `key` from two runs of entries removes it from each: the
      remaining entries keep their relative order. */
  lemma {:induction false} WithoutConcat(a: seq<(string, Value)>, b: seq<(string, Value)>, key: string)
    ensures Without(a + b, key) == Without(a, key) + Without(b, key)
    decreases |a|
  {
    if |a| > 0 {
      assert (a + b)[0] == a[0] && (a + b)[1..] == a[1..] + b;
      WithoutConcat(a[1..], b, key);
      if a[0].0 != key {
        assert Without(a, key) == [a[0]] + Without(a[1..], key);
      }
    } else {
      assert a + b == b;
    }
  }

  /** On a dict (distinct keys), `pop` removes exactly one entry when the
      key is present and none otherwise. */
  lemma {:induction false} WithoutDistinct(entries: seq<(string, Value)>, key: string)
    requires DistinctKeys(entries)
    ensures |Without(entries, key)| == if Lookup(entries, key).Some? then |entries| - 1 else |entries|
  {
    if |entries| > 0 {
      var rest := entries[1..];
      assert DistinctKeys(rest) by {
        forall a, b | 0 <= a < b < |rest|
          ensures rest[a].0 != rest[b].0
        {
          assert rest[a] == entries[a + 1] && rest[b] == entries[b + 1];
        }
      }
      if entries[0].0 == key {
        assert forall i :: 0 <= i < |rest| ==> rest[i] == entries[i + 1] && rest[i].0 != key;
      } else {
        WithoutDistinct(rest, key);
      }
    }
  }

  /** `Placements.parse` */
  function Parse(places: Value, env: Env): Result<Parsed, Failure> {
    match places
    case JObject(entries) =>
      var areas :- ParseAreas(Without(entries, ".meta"), env);
      Ok(Parsed(Lookup(entries, ".meta"), areas))
    case _ => Err(Assertion("", PlacesNotDict))
  }
}
