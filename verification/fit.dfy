/** The `fit` search of `operate` (src/PrintingPress/printingpress.py): try
    the strict rollover at the configured font size and, while it raises
    `RolloverError`, again one point smaller. */
module Fit {
  import opened Wrappers
  import opened Rollover

  /** The first attempt uses the area's own font; every later one a font
      rebuilt at the new size (`recreate(size)`), given here as `fontAt`. */
  function FontFor(initial: Metrics, fontAt: int -> Metrics, start: int, size: int): Metrics {
    if size == start then initial else fontAt(size)
  }

  /** The strict rollover succeeds at this size. */
  predicate FitsAt(text: string, initial: Metrics, fontAt: int -> Metrics, box: Box, start: int, size: int) {
    RolloverText(text, FontFor(initial, fontAt, start, size), box, true).Ok?
  }

  /** The search's result: the lines, the size that produced them and the
      attempt counter `tries`. */
  datatype Fitted = Fitted(lines: seq<seq<string>>, size: int, tries: int)

  /** The font could not be rebuilt: FreeType refuses a size that is not
      positive. */
  datatype FitFailure = InvalidSize(size: int)

  /** The countdown loop: the result is the first size, counting down by
      one from the configured size, at which the text fits, with `tries`
      counting the attempts; if the count reaches zero first, rebuilding the
      font fails. */
  method FitText(text: string, initial: Metrics, fontAt: int -> Metrics, box: Box, start: int)
    returns (r: Result<Fitted, FitFailure>)
    ensures r.Ok? ==> r.value.size <= start && r.value.tries == start - r.value.size + 1
    ensures r.Ok? ==> FitsAt(text, initial, fontAt, box, start, r.value.size)
    ensures r.Ok? ==> r.value.lines == RolloverText(text, FontFor(initial, fontAt, start, r.value.size), box, true).value
    ensures r.Ok? ==> forall s :: r.value.size < s <= start ==> !FitsAt(text, initial, fontAt, box, start, s)
    ensures r.Ok? && r.value.size < start ==> r.value.size >= 1
    ensures r.Err? ==> r.error.size == 0 || (start <= 0 && r.error.size == start - 1)
    ensures r.Err? ==> forall s :: 0 < s <= start ==> !FitsAt(text, initial, fontAt, box, start, s)
    ensures r.Err? ==> !FitsAt(text, initial, fontAt, box, start, start)
  {
    var size := start;
    var font := initial;
    var tries := 1;
    while true
      invariant size <= start && tries == start - size + 1
      invariant font == FontFor(initial, fontAt, start, size)
      invariant size < start ==> size >= 1
      invariant forall s :: size < s <= start ==> !FitsAt(text, initial, fontAt, box, start, s)
      decreases size
    {
      var attempt := RolloverText(text, font, box, true);
      if attempt.Ok? {
        return Ok(Fitted(attempt.value, size, tries));
      }
      size := size - 1;
      tries := tries + 1;
      if size <= 0 {
        return Err(InvalidSize(size));
      }
      font := fontAt(size);
    }
  }

  /** The same search as a recursive definition: the first size from `size`
      down to 1 at which the text fits. */
  function FirstFit(text: string, initial: Metrics, fontAt: int -> Metrics, box: Box, start: int, size: int): (r: Option<int>)
    ensures r.Some? ==> r.value <= size && (r.value == size || r.value >= 1)
    ensures r.Some? ==> FitsAt(text, initial, fontAt, box, start, r.value)
    decreases if size > 0 then size else 0
  {
    if FitsAt(text, initial, fontAt, box, start, size) then Some(size)
    else if size <= 1 then None
    else FirstFit(text, initial, fontAt, box, start, size - 1)
  }

  /** The recursive definition finds the largest fitting size in range. */
  lemma {:induction false} FirstFitIsLargest(text: string, initial: Metrics, fontAt: int -> Metrics, box: Box, start: int, size: int)
    ensures FirstFit(text, initial, fontAt, box, start, size).Some? ==>
      forall s :: FirstFit(text, initial, fontAt, box, start, size).value < s <= size ==> !FitsAt(text, initial, fontAt, box, start, s)
    ensures FirstFit(text, initial, fontAt, box, start, size).None? ==>
      forall s :: 0 < s <= size ==> !FitsAt(text, initial, fontAt, box, start, s)
    decreases if size > 0 then size else 0
  {
    if !FitsAt(text, initial, fontAt, box, start, size) && size > 1 {
      FirstFitIsLargest(text, initial, fontAt, box, start, size - 1);
    }
  }

  /** The loop and the recursive definition agree on a size found, including
      a start that is not positive but fits at once. */
  lemma FitAgrees(text: string, initial: Metrics, fontAt: int -> Metrics, box: Box, start: int, f: Fitted)
    requires f.size <= start && (f.size == start || 1 <= f.size)
    requires FitsAt(text, initial, fontAt, box, start, f.size)
    requires forall s :: f.size < s <= start ==> !FitsAt(text, initial, fontAt, box, start, s)
    ensures FirstFit(text, initial, fontAt, box, start, start) == Some(f.size)
  {
    FirstFitIsLargest(text, initial, fontAt, box, start, start);
  }

  /** They also agree on failure: when neither the start nor any positive
      size up to it fits, the recursive definition finds nothing. */
  lemma FitFailureAgrees(text: string, initial: Metrics, fontAt: int -> Metrics, box: Box, start: int)
    requires !FitsAt(text, initial, fontAt, box, start, start)
    requires forall s :: 0 < s <= start ==> !FitsAt(text, initial, fontAt, box, start, s)
    ensures FirstFit(text, initial, fontAt, box, start, start).None?
  {
  }
}
