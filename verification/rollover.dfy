/** The nested `rollover` of `operate` (src/PrintingPress/printingpress.py):
    greedy word wrapping of a text area against a box, with the font's
    measurements as an oracle. */
module Rollover {
  import opened Wrappers
  import opened Strings

  /** What `rollover` asks of a font: the right and bottom edge of the
      bounding box of a rendered string (`font.getmask(s).getbbox()[2:]`),
      and the font's descent. */
  datatype Metrics = Metrics(width: string -> int, height: string -> int, descent: int)

  /** `max_width, max_height = wh` */
  datatype Box = Box(maxWidth: int, maxHeight: int)

  /** The loop state: the lines built so far, the heights recorded at each
      wrap (`line_h`) and the running line height (`line_h_local`). */
  datatype Layout = Layout(lines: seq<seq<string>>, lineH: seq<int>, local: int)

  /** `RolloverError` (strict mode, text too tall) and an uncaught
      IndexError (the list of lines ran empty). */
  datatype RolloverFailure = TooTall | NoLine

  const Ellipsis: string := "…"

  const Init: Layout := Layout([[]], [], 0)

  function Max(a: int, b: int): int {
    if a < b then b else a
  }

  function Sum(s: seq<int>): int {
    if |s| == 0 then 0 else Sum(s[..|s| - 1]) + s[|s| - 1]
  }

  function Last<T>(s: seq<T>): T
    requires |s| > 0
  {
    s[|s| - 1]
  }

  /** The words of the lines, in order. */
  function Flatten(lines: seq<seq<string>>): seq<string> {
    if |lines| == 0 then [] else Flatten(lines[..|lines| - 1]) + Last(lines)
  }

  /** Appending a word and measuring the last line: if it is now wider than
      the box the word moves to a new line of its own, and `line_h_local`
      (given the line's height plus descent here only while it is still 0)
      and the measured height are recorded; otherwise `line_h_local` is
      raised to the line's height plus descent. It is a running maximum over
      the whole text, never reset per line. */
  function Place(m: Metrics, maxWidth: int, st: Layout, w: string): (r: Layout)
    requires |st.lines| > 0
    ensures |r.lines| > 0
  {
    var cur := Last(st.lines) + [w];
    var txtw := m.width(JoinWords(cur));
    var txth := m.height(JoinWords(cur));
    if txtw > maxWidth then
      var local := if st.local == 0 then txth + m.descent else st.local;
      Layout(st.lines + [[w]], st.lineH + [local, txth], local)
    else
      Layout(st.lines[..|st.lines| - 1] + [cur], st.lineH, Max(st.local, txth + m.descent))
  }

  /** `sum(line_h) > max_height or line_h_local > max_height` */
  predicate Overflows(st: Layout, maxHeight: int) {
    Sum(st.lineH) > maxHeight || st.local > maxHeight
  }

  /** The non-strict reaction to overflow: drop the last line, then replace
      the last word of the new last line by an ellipsis; an IndexError in
      that replacement (no line left, or an empty one) is swallowed. */
  function Truncate(st: Layout): (r: Layout)
    requires |st.lines| > 0
    ensures r.lineH == st.lineH && r.local == st.local
    // one line fewer; all lines before the new last one are untouched
    ensures |r.lines| == |st.lines| - 1
    ensures forall i :: 0 <= i < |r.lines| - 1 ==> r.lines[i] == st.lines[i]
    // the new last line keeps its length, and its last word becomes the ellipsis
    ensures |r.lines| > 0 ==> |Last(r.lines)| == |st.lines[|r.lines| - 1]|
    ensures |r.lines| > 0 && |Last(r.lines)| > 0 ==>
      Last(Last(r.lines)) == Ellipsis && Last(r.lines)[..|Last(r.lines)| - 1] == st.lines[|r.lines| - 1][..|Last(r.lines)| - 1]
  {
    var lines := st.lines[..|st.lines| - 1];
    if |lines| == 0 || |Last(lines)| == 0 then st.(lines := lines)
    else
      var line := Last(lines);
      st.(lines := lines[..|lines| - 1] + [line[..|line| - 1] + [Ellipsis]])
  }

  /** One iteration of the word loop. */
  function Step(m: Metrics, box: Box, strict: bool, st: Layout, w: string): Result<Layout, RolloverFailure> {
    if |st.lines| == 0 then Err(NoLine)
    else
      var placed := Place(m, box.maxWidth, st, w);
      if !Overflows(placed, box.maxHeight) then Ok(placed)
      else if strict then Err(TooTall)
      else Ok(Truncate(placed))
  }

  /** The word loop over a prefix of the words. */
  function Run(m: Metrics, box: Box, strict: bool, words: seq<string>): Result<Layout, RolloverFailure>
    decreases |words|
  {
    if |words| == 0 then Ok(Init)
    else
      var st :- Run(m, box, strict, words[..|words| - 1]);
      Step(m, box, strict, st, Last(words))
  }

  /** After the loop: a leading empty line is dropped; with no line left,
      `lines[0]` raises IndexError. */
  function Finish(st: Layout): Result<seq<seq<string>>, RolloverFailure> {
    if |st.lines| == 0 then Err(NoLine)
    else if st.lines[0] == [] then Ok(st.lines[1..])
    else Ok(st.lines)
  }

  /** `rollover(text, area_name, font, wh, raise_err)` */
  function RolloverText(text: string, m: Metrics, box: Box, strict: bool): Result<seq<seq<string>>, RolloverFailure> {
    var st :- Run(m, box, strict, Split(text));
    Finish(st)
  }

  /** The reference: the same greedy placement with no height check at all. */
  function Wrap(m: Metrics, maxWidth: int, words: seq<string>): (r: Layout)
    ensures |r.lines| > 0
    decreases |words|
  {
    if |words| == 0 then Init
    else Place(m, maxWidth, Wrap(m, maxWidth, words[..|words| - 1]), Last(words))
  }

  /** No prefix of the words overflows the box when wrapped. */
  predicate FitsAll(m: Metrics, box: Box, words: seq<string>) {
    forall k :: 1 <= k <= |words| ==> !Overflows(Wrap(m, box.maxWidth, words[..k]), box.maxHeight)
  }

  // ---------------------------------------------------------------------
  // Strict mode is the reference wrap, refused as soon as it overflows

  lemma PrefixOfPrefix(words: seq<string>, k: nat)
    requires |words| > 0 && k <= |words| - 1
    ensures words[..|words| - 1][..k] == words[..k]
  {
  }

  /** Strict mode succeeds exactly when no prefix overflows, and then it is
      the reference wrap; otherwise it raises `RolloverError`. */
  lemma {:induction false} StrictIsWrap(m: Metrics, box: Box, words: seq<string>)
    ensures Run(m, box, true, words).Ok? <==> FitsAll(m, box, words)
    ensures Run(m, box, true, words).Ok? ==> Run(m, box, true, words).value == Wrap(m, box.maxWidth, words)
    ensures Run(m, box, true, words).Err? ==> Run(m, box, true, words).error == TooTall
    decreases |words|
  {
    if |words| > 0 {
      var front := words[..|words| - 1];
      StrictIsWrap(m, box, front);
      assert words == front + [Last(words)];
      FitsAllStep(m, box, words);
    }
  }

  /** A text fits when its front fits and the whole does not overflow. */
  lemma FitsAllStep(m: Metrics, box: Box, words: seq<string>)
    requires |words| > 0
    ensures FitsAll(m, box, words) <==>
      FitsAll(m, box, words[..|words| - 1]) && !Overflows(Wrap(m, box.maxWidth, words), box.maxHeight)
  {
    var n := |words|;
    var front := words[..n - 1];
    assert words[..n] == words;
    if FitsAll(m, box, words) {
      forall k | 1 <= k <= |front|
        ensures !Overflows(Wrap(m, box.maxWidth, front[..k]), box.maxHeight)
      {
        PrefixOfPrefix(words, k);
        assert !Overflows(Wrap(m, box.maxWidth, words[..k]), box.maxHeight);
      }
      assert !Overflows(Wrap(m, box.maxWidth, words[..n]), box.maxHeight);
    }
    if FitsAll(m, box, front) && !Overflows(Wrap(m, box.maxWidth, words), box.maxHeight) {
      forall k | 1 <= k <= n
        ensures !Overflows(Wrap(m, box.maxWidth, words[..k]), box.maxHeight)
      {
        if k < n {
          PrefixOfPrefix(words, k);
          assert !Overflows(Wrap(m, box.maxWidth, front[..k]), box.maxHeight);
        }
      }
    }
  }

  /** When nothing overflows, the non-strict loop builds the same layout. */
  lemma {:induction false} LenientIsWrap(m: Metrics, box: Box, words: seq<string>)
    requires FitsAll(m, box, words)
    ensures Run(m, box, false, words) == Ok(Wrap(m, box.maxWidth, words))
    decreases |words|
  {
    if |words| > 0 {
      var front := words[..|words| - 1];
      forall k | 1 <= k <= |front|
        ensures !Overflows(Wrap(m, box.maxWidth, front[..k]), box.maxHeight)
      {
        PrefixOfPrefix(words, k);
      }
      LenientIsWrap(m, box, front);
      assert words[..|words|] == words;
    }
  }

  // ---------------------------------------------------------------------
  // The shape of the reference wrap

  /** A line is never empty except, possibly, the first; the first is empty
      only when the first word did not fit beside nothing and moved on. */
  predicate TailLinesFilled(lines: seq<seq<string>>) {
    forall i :: 1 <= i < |lines| ==> |lines[i]| > 0
  }

  lemma FlattenAppend(lines: seq<seq<string>>, line: seq<string>)
    ensures Flatten(lines + [line]) == Flatten(lines) + line
  {
    assert (lines + [line])[..|lines|] == lines;
  }

  lemma FlattenExtendLast(lines: seq<seq<string>>, w: string)
    requires |lines| > 0
    ensures Flatten(lines[..|lines| - 1] + [Last(lines) + [w]]) == Flatten(lines) + [w]
  {
    var front := lines[..|lines| - 1];
    var ext := front + [Last(lines) + [w]];
    assert ext[..|ext| - 1] == front;
    assert Flatten(ext) == Flatten(front) + (Last(lines) + [w]);
  }

  /** The wrap keeps every word, in order, one line per wrap, with two
      recorded heights per wrap. */
  lemma {:induction false} WrapShape(m: Metrics, maxWidth: int, words: seq<string>)
    ensures var r := Wrap(m, maxWidth, words);
      && Flatten(r.lines) == words
      && TailLinesFilled(r.lines)
      && |r.lineH| == 2 * (|r.lines| - 1)
      && (r.lines[0] == [] ==> |words| == 0 || |r.lines| > 1)
    decreases |words|
  {
    if |words| > 0 {
      var front := words[..|words| - 1];
      WrapShape(m, maxWidth, front);
      assert words == front + [Last(words)];
      PlaceShape(m, maxWidth, Wrap(m, maxWidth, front), front, Last(words));
    }
  }

  /** Placing one word keeps the shape of the wrap. */
  lemma PlaceShape(m: Metrics, maxWidth: int, st: Layout, front: seq<string>, w: string)
    requires |st.lines| > 0 && Flatten(st.lines) == front && TailLinesFilled(st.lines)
    requires |st.lineH| == 2 * (|st.lines| - 1)
    ensures var r := Place(m, maxWidth, st, w);
      && Flatten(r.lines) == front + [w]
      && TailLinesFilled(r.lines)
      && |r.lineH| == 2 * (|r.lines| - 1)
      && (r.lines[0] == [] ==> |r.lines| > 1)
  {
    var cur := Last(st.lines) + [w];
    if m.width(JoinWords(cur)) > maxWidth {
      FlattenAppend(st.lines, [w]);
    } else {
      FlattenExtendLast(st.lines, w);
    }
  }

  /** Every line of two or more words fits the width, and every line is as
      long as it can be: adding the next line's first word makes it too
      wide. A line of one word may be wider than the box. */
  lemma {:induction false} WrapWidths(m: Metrics, maxWidth: int, words: seq<string>)
    ensures var ls := Wrap(m, maxWidth, words).lines;
      && (forall i :: 0 <= i < |ls| && |ls[i]| >= 2 ==> m.width(JoinWords(ls[i])) <= maxWidth)
      && (forall i :: 0 <= i < |ls| - 1 && |ls[i + 1]| > 0 ==> m.width(JoinWords(ls[i] + [ls[i + 1][0]])) > maxWidth)
    decreases |words|
  {
    if |words| > 0 {
      var front := words[..|words| - 1];
      WrapWidths(m, maxWidth, front);
      WrapShape(m, maxWidth, front);
    }
  }

  // ---------------------------------------------------------------------
  // The finished result

  /** With no words the result is no lines, in either mode. */
  lemma NoWords(text: string, m: Metrics, box: Box, strict: bool)
    requires Split(text) == []
    ensures RolloverText(text, m, box, strict) == Ok([])
  {
    assert Run(m, box, strict, Split(text)) == Ok(Init);
    assert Init.lines[1..] == [];
  }

  /** The first step from the initial layout, for a one-word text. */
  lemma FirstStep(m: Metrics, box: Box, strict: bool, w: string)
    ensures Run(m, box, strict, [w]) == Step(m, box, strict, Init, w)
    ensures Place(m, box.maxWidth, Init, w) ==
      if m.width(w) > box.maxWidth then Layout([[], [w]], [m.height(w) + m.descent, m.height(w)], m.height(w) + m.descent)
      else Layout([[w]], [], Max(0, m.height(w) + m.descent))
  {
    assert [w][..0] == [];
    assert Last(Init.lines) + [w] == [w];
    assert JoinWords([w]) == w;
    assert Init.lines[..0] + [[w]] == [[w]];
  }

  /** A successful strict rollover keeps every word of the text in order,
      on non-empty lines; lines of two or more words fit the width; and it
      fails, with `RolloverError`, exactly when some prefix overflows. */
  lemma StrictResult(text: string, m: Metrics, box: Box)
    ensures RolloverText(text, m, box, true).Ok? <==> FitsAll(m, box, Split(text))
    ensures RolloverText(text, m, box, true).Err? ==> RolloverText(text, m, box, true).error == TooTall
    ensures RolloverText(text, m, box, true).Ok? ==>
      var ls := RolloverText(text, m, box, true).value;
      && Flatten(ls) == Split(text)
      && (forall i :: 0 <= i < |ls| ==> |ls[i]| > 0)
      && (forall i :: 0 <= i < |ls| && |ls[i]| >= 2 ==> m.width(JoinWords(ls[i])) <= box.maxWidth)
  {
    var words := Split(text);
    StrictIsWrap(m, box, words);
    if FitsAll(m, box, words) {
      FinishedWrap(m, box.maxWidth, words);
    }
  }

  /** The finished reference wrap: every word in order, on non-empty lines,
      each line of two or more words within the width. */
  lemma FinishedWrap(m: Metrics, maxWidth: int, words: seq<string>)
    ensures Finish(Wrap(m, maxWidth, words)).Ok?
    ensures var ls := Finish(Wrap(m, maxWidth, words)).value;
      && Flatten(ls) == words
      && (forall i :: 0 <= i < |ls| ==> |ls[i]| > 0)
      && (forall i :: 0 <= i < |ls| && |ls[i]| >= 2 ==> m.width(JoinWords(ls[i])) <= maxWidth)
  {
    WrapShape(m, maxWidth, words);
    WrapWidths(m, maxWidth, words);
    FinishKeeps(m, maxWidth, Wrap(m, maxWidth, words), words);
  }

  /** Finishing drops only an empty first line: the words, the filled
      lines and the widths stay as they were. */
  lemma FinishKeeps(m: Metrics, maxWidth: int, st: Layout, words: seq<string>)
    requires |st.lines| > 0 && Flatten(st.lines) == words && TailLinesFilled(st.lines)
    requires forall i :: 0 <= i < |st.lines| && |st.lines[i]| >= 2 ==> m.width(JoinWords(st.lines[i])) <= maxWidth
    ensures Finish(st).Ok?
    ensures var ls := Finish(st).value;
      && Flatten(ls) == words
      && (forall i :: 0 <= i < |ls| ==> |ls[i]| > 0)
      && (forall i :: 0 <= i < |ls| && |ls[i]| >= 2 ==> m.width(JoinWords(ls[i])) <= maxWidth)
  {
    var ls := st.lines;
    if ls[0] == [] {
      FlattenFront(ls);
      assert forall i :: 0 <= i < |ls[1..]| ==> ls[1..][i] == ls[i + 1];
    }
  }

  lemma FlattenFront(ls: seq<seq<string>>)
    requires |ls| > 0 && ls[0] == []
    ensures Flatten(ls[1..]) == Flatten(ls)
    decreases |ls|
  {
    if |ls| > 1 {
      FlattenFront(ls[..|ls| - 1]);
      assert ls[..|ls| - 1][1..] == ls[1..][..|ls| - 2];
    }
  }

  /** The non-strict mode lays the text out exactly as the strict one does
      whenever it fits. */
  lemma LenientWhenFits(text: string, m: Metrics, box: Box)
    requires FitsAll(m, box, Split(text))
    ensures RolloverText(text, m, box, false) == RolloverText(text, m, box, true)
  {
    StrictIsWrap(m, box, Split(text));
    LenientIsWrap(m, box, Split(text));
  }

  /** A one-word text whose word fits the width but not the height loses its
      only line, and `lines[0]` then raises IndexError: the word is not shown
      truncated, the call fails. */
  lemma TallWordFails(text: string, m: Metrics, box: Box, w: string)
    requires Split(text) == [w]
    requires m.width(w) <= box.maxWidth && m.height(w) + m.descent > box.maxHeight
    ensures RolloverText(text, m, box, false) == Err(NoLine)
  {
    FirstStep(m, box, false, w);
    var placed := Layout([[w]], [], Max(0, m.height(w) + m.descent));
    assert Overflows(placed, box.maxHeight);
    assert Truncate(placed).lines == [];
  }

  /** A one-word text whose word is wider than the box is still laid out as
      that one word, unmodified, when its heights fit: both the line height
      plus descent and the two heights recorded at the wrap (`2h + descent`)
      must stay within the box. */
  lemma WideWordAlone(text: string, m: Metrics, box: Box, strict: bool, w: string)
    requires Split(text) == [w]
    requires m.width(w) > box.maxWidth
    requires 2 * m.height(w) + m.descent <= box.maxHeight && m.height(w) + m.descent <= box.maxHeight
    ensures RolloverText(text, m, box, strict) == Ok([[w]])
  {
    FirstStep(m, box, strict, w);
    var h := m.height(w) + m.descent;
    var placed := Layout([[], [w]], [h, m.height(w)], h);
    SumAppend([], h, m.height(w));
    assert [] + [h, m.height(w)] == placed.lineH;
    assert !Overflows(placed, box.maxHeight);
    assert placed.lines[1..] == [[w]];
  }

  /** A one-word text whose word is too wide and too tall ends with no lines
      at all. */
  lemma WideTallWordVanishes(text: string, m: Metrics, box: Box, w: string)
    requires Split(text) == [w]
    requires m.width(w) > box.maxWidth && m.height(w) + m.descent > box.maxHeight
    ensures RolloverText(text, m, box, false) == Ok([])
  {
    FirstStep(m, box, false, w);
    var h := m.height(w) + m.descent;
    var placed := Layout([[], [w]], [h, m.height(w)], h);
    assert Overflows(placed, box.maxHeight);
    assert Truncate(placed).lines == [[]];
    assert Truncate(placed).lines[1..] == [];
  }

  // ---------------------------------------------------------------------
  // Once full, always full

  /** Fonts whose heights and descent are not negative. */
  ghost predicate Grounded(m: Metrics) {
    m.descent >= 0 && forall s :: m.height(s) >= 0
  }

  /** Recorded heights are not negative. */
  predicate Settled(st: Layout) {
    st.local >= 0 && forall i :: 0 <= i < |st.lineH| ==> st.lineH[i] >= 0
  }

  lemma SumAppend(s: seq<int>, a: int, b: int)
    ensures Sum(s + [a, b]) == Sum(s) + a + b
  {
    assert (s + [a, b])[..|s| + 1] == s + [a];
    assert (s + [a])[..|s|] == s;
  }

  /** Placing a word never lowers the recorded heights. */
  lemma PlaceGrows(m: Metrics, maxWidth: int, st: Layout, w: string)
    requires Grounded(m) && Settled(st) && |st.lines| > 0
    ensures var r := Place(m, maxWidth, st, w);
      Settled(r) && Sum(r.lineH) >= Sum(st.lineH) && r.local >= st.local
  {
    var cur := Last(st.lines) + [w];
    assert m.height(JoinWords(cur)) >= 0;
    if m.width(JoinWords(cur)) > maxWidth {
      var local := if st.local == 0 then m.height(JoinWords(cur)) + m.descent else st.local;
      SumAppend(st.lineH, local, m.height(JoinWords(cur)));
    }
  }

  lemma {:induction false} LenientSettled(m: Metrics, box: Box, words: seq<string>)
    requires Grounded(m)
    ensures Run(m, box, false, words).Ok? ==> Settled(Run(m, box, false, words).value)
    decreases |words|
  {
    if |words| > 0 {
      var front := words[..|words| - 1];
      LenientSettled(m, box, front);
      var prev := Run(m, box, false, front);
      if prev.Ok? && |prev.value.lines| > 0 {
        PlaceGrows(m, box.maxWidth, prev.value, Last(words));
      }
    }
  }

  /** In the lenient mode, once the text has overflowed the box every later
      word overflows it too, so each of them is cut off in turn. */
  lemma {:induction false} OverflowPersists(m: Metrics, box: Box, words: seq<string>, k: nat)
    requires Grounded(m) && k <= |words|
    requires Run(m, box, false, words[..k]).Ok? && Overflows(Run(m, box, false, words[..k]).value, box.maxHeight)
    ensures Run(m, box, false, words).Ok? ==> Overflows(Run(m, box, false, words).value, box.maxHeight)
    decreases |words| - k
  {
    if k == |words| {
      assert words[..k] == words;
    } else {
      var front := words[..|words| - 1];
      PrefixOfPrefix(words, k);
      OverflowPersists(m, box, front, k);
      LenientSettled(m, box, front);
      var prev := Run(m, box, false, front);
      if prev.Ok? && |prev.value.lines| > 0 {
        PlaceGrows(m, box.maxWidth, prev.value, Last(words));
      }
    }
  }

  // ---------------------------------------------------------------------
  // Lines are never empty, in either mode

  lemma PlaceFilled(m: Metrics, maxWidth: int, st: Layout, w: string)
    requires |st.lines| > 0 && TailLinesFilled(st.lines)
    ensures TailLinesFilled(Place(m, maxWidth, st, w).lines)
  {
  }

  lemma TruncateFilled(st: Layout)
    requires |st.lines| > 0 && TailLinesFilled(st.lines)
    ensures TailLinesFilled(Truncate(st).lines)
  {
  }

  lemma {:induction false} RunFilled(m: Metrics, box: Box, strict: bool, words: seq<string>)
    ensures Run(m, box, strict, words).Ok? ==> TailLinesFilled(Run(m, box, strict, words).value.lines)
    decreases |words|
  {
    if |words| > 0 {
      var front := words[..|words| - 1];
      RunFilled(m, box, strict, front);
      var prev := Run(m, box, strict, front);
      if prev.Ok? && |prev.value.lines| > 0 {
        PlaceFilled(m, box.maxWidth, prev.value, Last(words));
        TruncateFilled(Place(m, box.maxWidth, prev.value, Last(words)));
      }
    }
  }

  /** Whatever the mode, a finished layout has no empty line: only the
      first line can be empty, and that one is dropped. */
  lemma LinesFilled(text: string, m: Metrics, box: Box, strict: bool)
    ensures RolloverText(text, m, box, strict).Ok? ==>
      forall i :: 0 <= i < |RolloverText(text, m, box, strict).value| ==> |RolloverText(text, m, box, strict).value[i]| > 0
  {
    RunFilled(m, box, strict, Split(text));
  }

  // ---------------------------------------------------------------------
  // A text that fits on one line

  /** Every prefix of the words fits the width and its height plus descent
      fits the (non-negative) box height. */
  predicate OneLineFits(m: Metrics, box: Box, words: seq<string>) {
    box.maxHeight >= 0 &&
    forall k :: 1 <= k <= |words| ==>
      m.width(JoinWords(words[..k])) <= box.maxWidth && m.height(JoinWords(words[..k])) + m.descent <= box.maxHeight
  }

  /** A prefix of a text that fits on one line fits on one line. */
  lemma OneLinePrefix(m: Metrics, box: Box, words: seq<string>, k: nat)
    requires OneLineFits(m, box, words) && k <= |words|
    ensures OneLineFits(m, box, words[..k])
  {
    forall j | 1 <= j <= k
      ensures words[..k][..j] == words[..j]
    {
    }
  }

  /** Such a text wraps to one line, with no wrap recorded and a running
      height within the box. */
  lemma {:induction false} OneLineWrap(m: Metrics, box: Box, words: seq<string>)
    requires OneLineFits(m, box, words)
    ensures Wrap(m, box.maxWidth, words).lines == [words]
    ensures Wrap(m, box.maxWidth, words).lineH == []
    ensures 0 <= Wrap(m, box.maxWidth, words).local <= box.maxHeight
    decreases |words|
  {
    if |words| > 0 {
      var front := words[..|words| - 1];
      OneLinePrefix(m, box, words, |words| - 1);
      OneLineWrap(m, box, front);
      assert front + [Last(words)] == words[..|words|] == words;
    }
  }

  /** A text that fits on one line overflows at no prefix. */
  lemma OneLineFitsAll(m: Metrics, box: Box, words: seq<string>)
    requires OneLineFits(m, box, words)
    ensures FitsAll(m, box, words)
  {
    forall k | 1 <= k <= |words|
      ensures !Overflows(Wrap(m, box.maxWidth, words[..k]), box.maxHeight)
    {
      OneLinePrefix(m, box, words, k);
      OneLineWrap(m, box, words[..k]);
    }
  }

  /** Such a text is laid out as one line holding all its words, in either mode. */
  lemma SingleLine(text: string, m: Metrics, box: Box, strict: bool)
    requires |Split(text)| > 0 && OneLineFits(m, box, Split(text))
    ensures RolloverText(text, m, box, strict) == Ok([Split(text)])
  {
    var words := Split(text);
    OneLineWrap(m, box, words);
    OneLineFitsAll(m, box, words);
    StrictIsWrap(m, box, words);
    LenientIsWrap(m, box, words);
  }
}
