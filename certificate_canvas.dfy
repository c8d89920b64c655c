/**
 * The template compositor of `CertificateCanvas`: greedy word wrapping, the resolution of each
 * element's defaults, `{name}` substitution and the mapping of percentage positions to pixels.
 * The canvas is modelled by the draw commands it receives (which text, at which point, in which
 * style), not by pixels; `ctx.measureText` is the parameter `measure`, a function of the current
 * font and the string.
 */
module CertificateCanvas {
  import opened Wrappers
  import opened Types
  import opened JsStrings
  import NameToken

  /** What the `ctx.font` shorthand `${weight} ${size}px ${family}` names. */
  datatype Font = Font(weight: string, size: real, family: string)

  /** The context state set before an element is drawn; the baseline is always "top". */
  datatype Style = Style(font: Font, color: string, align: TextAlign)

  /** One `ctx.fillText(text, x, y[, maxWidth])` call. */
  datatype Fill = Fill(text: string, x: real, y: real, maxWidth: Option<real>)

  /** Everything drawn for one text element: the style it was drawn in and its fills, top to bottom. */
  datatype ElementDraw = ElementDraw(style: Style, fills: seq<Fill>)

  /** The natural size of a decoded template image. */
  datatype Image = Image(width: nat, height: nat)

  /** A rendered canvas: its size, the background drawn over all of it, then each element in list order. */
  datatype Surface = Surface(width: nat, height: nat, background: Image, draws: seq<ElementDraw>)

  /** A glyph measurer at a fixed font together with the wrap width. */
  datatype Layout = Layout(measure: string -> real, maxWidth: real) {
    /** The break test of `drawTextWithWrap`: a nonzero width (`maxWidth &&`) and a wider candidate. */
    predicate Overflows(line: string) {
      maxWidth != 0.0 && measure(line) > maxWidth
    }
  }

  // ---------------------------------------------------------------------------------------------
  // Word wrapping
  // ---------------------------------------------------------------------------------------------

  /** The text of a line holding `group`: each word followed by one space. */
  function Line(group: seq<string>): string
    decreases |group|
  {
    if |group| == 0 then [] else Line(group[..|group| - 1]) + group[|group| - 1] + " "
  }

  /** The line made of the first `j` words of `group`. */
  function LinePrefix(group: seq<string>, j: nat): string
    requires j <= |group|
  {
    Line(group[..j])
  }

  /** All words of all groups, in order. */
  function Flatten(groups: seq<seq<string>>): seq<string>
    decreases |groups|
  {
    if |groups| == 0 then [] else Flatten(groups[..|groups| - 1]) + groups[|groups| - 1]
  }

  /** The text of each line. */
  function Lines(groups: seq<seq<string>>): (r: seq<string>)
    ensures |r| == |groups|
    ensures forall i :: 0 <= i < |groups| ==> r[i] == Line(groups[i])
  {
    seq(|groups|, i requires 0 <= i < |groups| => Line(groups[i]))
  }

  /** Strings laid end to end. */
  function Concat(parts: seq<string>): string
    decreases |parts|
  {
    if |parts| == 0 then [] else Concat(parts[..|parts| - 1]) + parts[|parts| - 1]
  }

  /** The loop state of `drawTextWithWrap`: the committed lines and the line being filled. */
  datatype WrapState = WrapState(done: seq<seq<string>>, current: seq<string>)

  function Groups(st: WrapState): seq<seq<string>> {
    st.done + [st.current]
  }

  /** The loop state after the first `k` words. */
  function WrapPrefix(lay: Layout, words: seq<string>, k: nat): WrapState
    requires k <= |words|
    decreases k
  {
    if k == 0 then WrapState([], [])
    else
      var st := WrapPrefix(lay, words, k - 1);
      var w := words[k - 1];
      if lay.Overflows(Line(st.current + [w])) && k - 1 > 0 then WrapState(st.done + [st.current], [w])
      else WrapState(st.done, st.current + [w])
  }

  /** The words of each line `drawTextWithWrap` pushes, the last line included. */
  function WrapGroups(lay: Layout, words: seq<string>): (r: seq<seq<string>>)
    ensures |r| >= 1
  {
    Groups(WrapPrefix(lay, words, |words|))
  }

  /** The lines `drawTextWithWrap` draws for `text`. */
  function WrapText(lay: Layout, text: string): seq<string> {
    Lines(WrapGroups(lay, Split(text, ' ')))
  }

  /** One fill per line, line `i` at `(x, y + i * lineHeight)`. */
  function PlaceLines(lines: seq<string>, x: real, y: real, lineHeight: real, maxWidth: Option<real>): (r: seq<Fill>)
    ensures |r| == |lines|
  {
    seq(|lines|, i requires 0 <= i < |lines| => Fill(lines[i], x, y + (i as real) * lineHeight, maxWidth))
  }

  ghost predicate NonEmptyGroups(groups: seq<seq<string>>) {
    forall i :: 0 <= i < |groups| ==> |groups[i]| > 0
  }

  /** Every line of two or more words was a candidate that did not overflow, at each word added. */
  ghost predicate GroupsFit(lay: Layout, groups: seq<seq<string>>) {
    forall i, j :: 0 <= i < |groups| && 2 <= j <= |groups[i]| ==> !lay.Overflows(LinePrefix(groups[i], j))
  }

  /** Each break was forced: the line plus the next line's first word overflows. */
  ghost predicate BreaksOverflow(lay: Layout, groups: seq<seq<string>>) {
    forall i :: 1 <= i < |groups| ==> BreakForced(lay, groups[i - 1], groups[i])
  }

  /** The line `prev` could not take the first word of `next`. */
  ghost predicate BreakForced(lay: Layout, prev: seq<string>, next: seq<string>) {
    |next| > 0 && lay.Overflows(Line(prev + [next[0]]))
  }

  /**
   * An independent description of greedy wrapping: the words cut, in order and whole, into non-empty
   * lines, each line grown as long as it fits and broken only when the next word does not fit.
   */
  ghost predicate IsGreedyWrap(lay: Layout, words: seq<string>, groups: seq<seq<string>>) {
    && |groups| >= 1
    && NonEmptyGroups(groups)
    && Flatten(groups) == words
    && GroupsFit(lay, groups)
    && BreaksOverflow(lay, groups)
  }

  lemma {:induction false} LineAppend(a: seq<string>, b: seq<string>)
    ensures Line(a + b) == Line(a) + Line(b)
    decreases |b|
  {
    if |b| == 0 {
      assert a + b == a;
    } else {
      var init, w := b[..|b| - 1], b[|b| - 1];
      LineAppend(a, init);
      assert (a + b)[..|a + b| - 1] == a + init;
      assert Line(a + b) == Line(a + init) + w + " ";
      assert Line(b) == Line(init) + w + " ";
    }
  }

  lemma {:induction false} FlattenCons(groups: seq<seq<string>>)
    requires |groups| >= 1
    ensures Flatten(groups) == groups[0] + Flatten(groups[1..])
    decreases |groups|
  {
    if |groups| == 1 {
      assert groups[..0] == [];
      assert groups[1..] == [];
    } else {
      var n := |groups|;
      FlattenCons(groups[..n - 1]);
      assert groups[..n - 1][1..] == groups[1..][..n - 2];
      assert groups[..n - 1][0] == groups[0];
    }
  }

  lemma {:induction false} ConcatLines(groups: seq<seq<string>>)
    ensures Concat(Lines(groups)) == Line(Flatten(groups))
    decreases |groups|
  {
    if |groups| > 0 {
      var n := |groups|;
      ConcatLines(groups[..n - 1]);
      assert Lines(groups)[..n - 1] == Lines(groups[..n - 1]);
      LineAppend(Flatten(groups[..n - 1]), groups[n - 1]);
    }
  }

  /** A new line holding `w` alone, after a line that `w` would have overflowed. */
  lemma GreedyBreak(lay: Layout, words: seq<string>, groups: seq<seq<string>>, w: string)
    requires IsGreedyWrap(lay, words, groups)
    requires lay.Overflows(Line(groups[|groups| - 1] + [w]))
    ensures IsGreedyWrap(lay, words + [w], groups + [[w]])
  {
    var q := groups + [[w]];
    assert q[..|q| - 1] == groups;
    forall i, j | 0 <= i < |q| && 2 <= j <= |q[i]| ensures !lay.Overflows(LinePrefix(q[i], j)) {
      assert i < |groups| && q[i] == groups[i];
    }
  }

  /** `w` added to the last line, which it does not overflow. */
  lemma GreedyExtend(lay: Layout, words: seq<string>, groups: seq<seq<string>>, w: string)
    requires IsGreedyWrap(lay, words, groups)
    requires !lay.Overflows(Line(groups[|groups| - 1] + [w]))
    ensures IsGreedyWrap(lay, words + [w], groups[..|groups| - 1] + [groups[|groups| - 1] + [w]])
  {
    var n := |groups|;
    var q := groups[..n - 1] + [groups[n - 1] + [w]];
    ExtendFlatten(groups, w);
    ExtendFits(lay, groups, w);
    ExtendBreaks(lay, groups, w);
    assert NonEmptyGroups(q) by {
      forall i | 0 <= i < n ensures |q[i]| > 0 {
        if i < n - 1 { assert q[i] == groups[i]; }
      }
    }
  }

  lemma ExtendFlatten(groups: seq<seq<string>>, w: string)
    requires |groups| >= 1
    ensures Flatten(groups[..|groups| - 1] + [groups[|groups| - 1] + [w]]) == Flatten(groups) + [w]
  {
    var n := |groups|;
    var q := groups[..n - 1] + [groups[n - 1] + [w]];
    assert q[..n - 1] == groups[..n - 1];
  }

  lemma ExtendFits(lay: Layout, groups: seq<seq<string>>, w: string)
    requires |groups| >= 1 && GroupsFit(lay, groups)
    requires !lay.Overflows(Line(groups[|groups| - 1] + [w]))
    ensures GroupsFit(lay, groups[..|groups| - 1] + [groups[|groups| - 1] + [w]])
  {
    var n := |groups|;
    var g := groups[n - 1];
    var q := groups[..n - 1] + [g + [w]];
    forall i, j | 0 <= i < n && 2 <= j <= |q[i]| ensures !lay.Overflows(LinePrefix(q[i], j)) {
      if i < n - 1 {
        assert q[i] == groups[i];
      } else if j <= |g| {
        assert q[i][..j] == g[..j];
        assert LinePrefix(q[i], j) == LinePrefix(groups[n - 1], j);
      } else {
        assert q[i][..j] == g + [w];
      }
    }
  }

  lemma ExtendBreaks(lay: Layout, groups: seq<seq<string>>, w: string)
    requires |groups| >= 1 && NonEmptyGroups(groups) && BreaksOverflow(lay, groups)
    ensures BreaksOverflow(lay, groups[..|groups| - 1] + [groups[|groups| - 1] + [w]])
  {
    var n := |groups|;
    var q := groups[..n - 1] + [groups[n - 1] + [w]];
    forall i | 1 <= i < n ensures BreakForced(lay, q[i - 1], q[i]) {
      assert q[i - 1] == groups[i - 1];
      assert q[i][0] == groups[i][0];
    }
  }

  /** After any number of words the loop state, with its open line, is a greedy wrap of those words. */
  lemma {:induction false} WrapPrefixGreedy(lay: Layout, words: seq<string>, k: nat)
    requires 1 <= k <= |words|
    ensures IsGreedyWrap(lay, words[..k], Groups(WrapPrefix(lay, words, k)))
    decreases k
  {
    var w := words[k - 1];
    if k == 1 {
      var st := WrapPrefix(lay, words, 1);
      assert st == WrapState([], [w]);
      assert Groups(st) == [[w]];
      assert Flatten([[w]]) == Flatten([]) + [w];
      assert words[..1] == [w];
    } else {
      WrapPrefixGreedy(lay, words, k - 1);
      var prev := WrapPrefix(lay, words, k - 1);
      var p := Groups(prev);
      assert words[..k] == words[..k - 1] + [w];
      assert p[|p| - 1] == prev.current;
      if lay.Overflows(Line(prev.current + [w])) {
        GreedyBreak(lay, words[..k - 1], p, w);
        assert Groups(WrapPrefix(lay, words, k)) == p + [[w]];
      } else {
        GreedyExtend(lay, words[..k - 1], p, w);
        assert p[..|p| - 1] == prev.done;
        assert Groups(WrapPrefix(lay, words, k)) == p[..|p| - 1] + [prev.current + [w]];
      }
    }
  }

  /** What `drawTextWithWrap` computes is a greedy wrap (there is always a word: `split` never returns []). */
  lemma WrapGroupsGreedy(lay: Layout, words: seq<string>)
    requires |words| >= 1
    ensures IsGreedyWrap(lay, words, WrapGroups(lay, words))
  {
    WrapPrefixGreedy(lay, words, |words|);
    assert words[..|words|] == words;
  }

  /** The first line of a greedy wrap is a prefix of the words, and the rest wraps the remaining words. */
  lemma GreedyHeadTail(lay: Layout, words: seq<string>, groups: seq<seq<string>>)
    requires IsGreedyWrap(lay, words, groups)
    ensures |groups[0]| <= |words| && words[..|groups[0]|] == groups[0]
    ensures |groups| > 1 ==> |groups[0]| < |words| && words[|groups[0]|] == groups[1][0]
    ensures |groups| > 1 ==> IsGreedyWrap(lay, words[|groups[0]|..], groups[1..])
    ensures |groups| == 1 ==> groups[0] == words
  {
    FlattenCons(groups);
    var rest := groups[1..];
    if |groups| > 1 {
      FlattenCons(rest);
      assert Flatten(rest)[0] == groups[1][0];
      forall i, j | 0 <= i < |rest| && 2 <= j <= |rest[i]| ensures !lay.Overflows(LinePrefix(rest[i], j)) {
        assert rest[i] == groups[i + 1];
      }
      forall i | 1 <= i < |rest| ensures BreakForced(lay, rest[i - 1], rest[i]) {
        assert rest[i - 1] == groups[i] && rest[i] == groups[i + 1];
      }
    } else {
      assert rest == [];
    }
  }

  /** In two greedy wraps of the same words, a first line that is followed by a break is the longer one. */
  lemma GreedyFirstLineBound(lay: Layout, words: seq<string>, p: seq<seq<string>>, q: seq<seq<string>>)
    requires IsGreedyWrap(lay, words, p) && IsGreedyWrap(lay, words, q)
    requires |p| > 1
    ensures |q[0]| <= |p[0]|
  {
    GreedyHeadTail(lay, words, p);
    GreedyHeadTail(lay, words, q);
    var m := |p[0]|;
    assert words[..m + 1] == p[0] + [p[1][0]];
    assert BreakForced(lay, p[0], p[1]);
    assert lay.Overflows(LinePrefix(words, m + 1));
    forall j | 2 <= j <= |q[0]| ensures !lay.Overflows(LinePrefix(words, j)) {
      assert q[0][..j] == words[..j];
      assert LinePrefix(q[0], j) == LinePrefix(words, j);
    }
  }

  /** The greedy wrap of a word list is unique. */
  lemma {:induction false} GreedyWrapUnique(lay: Layout, words: seq<string>, p: seq<seq<string>>, q: seq<seq<string>>)
    requires IsGreedyWrap(lay, words, p) && IsGreedyWrap(lay, words, q)
    ensures p == q
    decreases |words|
  {
    GreedyHeadTail(lay, words, p);
    GreedyHeadTail(lay, words, q);
    if |p| > 1 { GreedyFirstLineBound(lay, words, p, q); }
    if |q| > 1 { GreedyFirstLineBound(lay, words, q, p); }
    var m := |p[0]|;
    assert |q[0]| == m && p[0] == q[0];
    if |p| > 1 && |q| > 1 {
      GreedyWrapUnique(lay, words[m..], p[1..], q[1..]);
      assert p == [p[0]] + p[1..] && q == [q[0]] + q[1..];
    } else {
      assert |p| == 1 && |q| == 1;
    }
  }

  /** So `drawTextWithWrap` computes exactly the greedy wrap. */
  lemma WrapGroupsIsTheGreedyWrap(lay: Layout, words: seq<string>, groups: seq<seq<string>>)
    requires IsGreedyWrap(lay, words, groups)
    ensures WrapGroups(lay, words) == groups
  {
    WrapGroupsGreedy(lay, words);
    GreedyWrapUnique(lay, words, WrapGroups(lay, words), groups);
  }

  /** Re-wrapping the words of any wrapped line at the same width gives that one line back. */
  lemma WrapIdempotent(lay: Layout, words: seq<string>, i: nat)
    requires |words| >= 1
    requires i < |WrapGroups(lay, words)|
    ensures WrapGroups(lay, WrapGroups(lay, words)[i]) == [WrapGroups(lay, words)[i]]
  {
    var groups := WrapGroups(lay, words);
    WrapGroupsGreedy(lay, words);
    var g := groups[i];
    assert Flatten([g]) == Flatten([]) + g;
    forall a, j | 0 <= a < 1 && 2 <= j <= |[g][a]| ensures !lay.Overflows(LinePrefix([g][a], j)) {
      assert [g][a] == groups[i];
    }
    WrapGroupsIsTheGreedyWrap(lay, g, [g]);
  }

  /** Words whose every candidate line fits make one line. */
  lemma OneLineWhenItFits(lay: Layout, words: seq<string>)
    requires |words| >= 1
    requires forall j :: 2 <= j <= |words| ==> !lay.Overflows(LinePrefix(words, j))
    ensures WrapGroups(lay, words) == [words]
  {
    assert Flatten([words]) == Flatten([]) + words;
    WrapGroupsIsTheGreedyWrap(lay, words, [words]);
  }

  /** With a zero width (falsy `maxWidth`) nothing breaks: all the words make one line. */
  lemma ZeroWidthOneLine(measure: string -> real, words: seq<string>)
    requires |words| >= 1
    ensures WrapGroups(Layout(measure, 0.0), words) == [words]
  {
    OneLineWhenItFits(Layout(measure, 0.0), words);
  }

  /** No word is lost, reordered or split: the lines laid end to end are the words, each followed by a space. */
  lemma WrapTextKeepsWords(lay: Layout, text: string)
    ensures Concat(WrapText(lay, text)) == Line(Split(text, ' '))
  {
    var words := Split(text, ' ');
    WrapGroupsGreedy(lay, words);
    ConcatLines(WrapGroups(lay, words));
  }

  /** There is at least one line and no line is empty: each ends with the space after its last word. */
  lemma WrapTextLinesNonEmpty(lay: Layout, text: string)
    ensures |WrapText(lay, text)| >= 1
    ensures forall i :: 0 <= i < |WrapText(lay, text)| ==>
      |WrapText(lay, text)[i]| > 0 && WrapText(lay, text)[i][|WrapText(lay, text)[i]| - 1] == ' '
  {
    WrapGroupsGreedy(lay, Split(text, ' '));
  }

  /** The empty text still draws one line, a single space. */
  lemma WrapEmptyText(lay: Layout)
    ensures WrapText(lay, []) == [" "]
  {
    var e: string := [];
    var words: seq<string> := [e];
    assert Split([], ' ') == words;
    assert WrapPrefix(lay, words, 0) == WrapState([], []);
    assert WrapPrefix(lay, words, 1) == WrapState([], words);
    assert words[..0] == [];
    LineSnoc([], e);
    assert [] + [e] == words;
    assert Line(words) == " ";
    assert WrapGroups(lay, words) == [words];
    assert WrapText(lay, []) == Lines([words]);
    LinesSnoc([], words);
  }

  /** A line wider than the width holds a single word; every line of two or more words fits. */
  lemma OverwideLineHoldsOneWord(lay: Layout, text: string, i: nat)
    requires i < |WrapGroups(lay, Split(text, ' '))|
    requires lay.Overflows(WrapText(lay, text)[i])
    ensures |WrapGroups(lay, Split(text, ' '))[i]| == 1
  {
    var groups := WrapGroups(lay, Split(text, ' '));
    WrapGroupsGreedy(lay, Split(text, ' '));
    var g := groups[i];
    assert g[..|g|] == g;
    assert LinePrefix(g, |g|) == WrapText(lay, text)[i];
  }

  /** Greedy maximality: the first word of the next line would not have fitted on this one. */
  lemma NextWordWouldOverflow(lay: Layout, text: string, i: nat)
    requires i + 1 < |WrapGroups(lay, Split(text, ' '))|
    ensures var groups := WrapGroups(lay, Split(text, ' '));
      |groups[i + 1]| > 0 && lay.Overflows(WrapText(lay, text)[i] + groups[i + 1][0] + " ")
  {
    var groups := WrapGroups(lay, Split(text, ' '));
    WrapGroupsGreedy(lay, Split(text, ' '));
    assert BreakForced(lay, groups[(i + 1) - 1], groups[i + 1]);
    LineSnoc(groups[i], groups[i + 1][0]);
  }

  /**
   * `drawTextWithWrap(ctx, text, x, y, maxWidth, lineHeight)`, where `measure` is `ctx.measureText`
   * at the current font: the lines are built by one greedy pass over `text.split(' ')`, then drawn one
   * below the other.
   */
  method DrawTextWithWrap(measure: string -> real, text: string, x: real, y: real, maxWidth: real, lineHeight: real)
    returns (fills: seq<Fill>)
    ensures fills == PlaceLines(WrapText(Layout(measure, maxWidth), text), x, y, lineHeight, Some(maxWidth))
  {
    ghost var lay := Layout(measure, maxWidth);
    var words := Split(text, ' ');
    var line: string := [];
    var lines: seq<string> := [];
    for n := 0 to |words|
      invariant lines == Lines(WrapPrefix(lay, words, n).done)
      invariant line == Line(WrapPrefix(lay, words, n).current)
    {
      WrapLoopStep(lay, words, n);
      var testLine := line + words[n] + " ";
      var testWidth := measure(testLine);
      if maxWidth != 0.0 && testWidth > maxWidth && n > 0 {
        lines := lines + [line];
        line := words[n] + " ";
      } else {
        line := testLine;
      }
    }
    LinesSnoc(WrapPrefix(lay, words, |words|).done, WrapPrefix(lay, words, |words|).current);
    lines := lines + [line];
    fills := [];
    for i := 0 to |lines|
      invariant fills == PlaceLines(lines[..i], x, y, lineHeight, Some(maxWidth))
    {
      PlaceLinesSnoc(lines, i, x, y, lineHeight, Some(maxWidth));
      fills := fills + [Fill(lines[i], x, y + (i as real) * lineHeight, Some(maxWidth))];
    }
    assert lines[..|lines|] == lines;
  }

  /** One turn of the wrap loop, on the line texts the method keeps. */
  lemma WrapLoopStep(lay: Layout, words: seq<string>, n: nat)
    requires n < |words|
    ensures var st := WrapPrefix(lay, words, n);
      var testLine := Line(st.current) + words[n] + " ";
      var next := WrapPrefix(lay, words, n + 1);
      if lay.Overflows(testLine) && n > 0 then
        Lines(next.done) == Lines(st.done) + [Line(st.current)] && Line(next.current) == words[n] + " "
      else
        Lines(next.done) == Lines(st.done) && Line(next.current) == testLine
  {
    var st := WrapPrefix(lay, words, n);
    LineSnoc(st.current, words[n]);
    LineSnoc([], words[n]);
    LinesSnoc(st.done, st.current);
  }

  lemma LineSnoc(group: seq<string>, w: string)
    ensures Line(group + [w]) == Line(group) + w + " "
  {
    assert (group + [w])[..|group|] == group;
  }

  lemma LinesSnoc(groups: seq<seq<string>>, g: seq<string>)
    ensures Lines(groups + [g]) == Lines(groups) + [Line(g)]
  {
  }

  lemma PlaceLinesSnoc(lines: seq<string>, i: nat, x: real, y: real, lineHeight: real, maxWidth: Option<real>)
    requires i < |lines|
    ensures PlaceLines(lines[..i + 1], x, y, lineHeight, maxWidth)
      == PlaceLines(lines[..i], x, y, lineHeight, maxWidth) + [Fill(lines[i], x, y + (i as real) * lineHeight, maxWidth)]
  {
  }

  // ---------------------------------------------------------------------------------------------
  // One element, and the whole canvas
  // ---------------------------------------------------------------------------------------------

  /** JavaScript truthiness of an optional number: present and not 0. */
  predicate NumberSet(v: Option<real>) {
    v.Some? && v.value != 0.0
  }

  /** JavaScript truthiness of an optional string: present and not empty. */
  predicate StringSet(v: Option<string>) {
    v.Some? && v.value != []
  }

  /** The ctx state for an element: each field falls back to its default when unset, 0 or empty. */
  function ResolveStyle(el: TextElement): (s: Style)
    ensures s.font.family != [] && s.font.weight != [] && s.font.size != 0.0 && s.color != []
    ensures StringSet(el.fontFamily) ==> s.font.family == el.fontFamily.value
    ensures !StringSet(el.fontFamily) ==> s.font.family == "Arial"
    ensures StringSet(el.fontWeight) ==> s.font.weight == el.fontWeight.value
    ensures !StringSet(el.fontWeight) ==> s.font.weight == "normal"
    ensures el.fontSize != 0.0 ==> s.font.size == el.fontSize
    ensures el.fontSize == 0.0 ==> s.font.size == 32.0
    ensures el.fontColor != [] ==> s.color == el.fontColor
    ensures el.fontColor == [] ==> s.color == "#222"
    ensures s.align == el.textAlign.GetOr(Left)
  {
    var family := if StringSet(el.fontFamily) then el.fontFamily.value else "Arial";
    var weight := if StringSet(el.fontWeight) then el.fontWeight.value else "normal";
    var size := if el.fontSize != 0.0 then el.fontSize else 32.0;
    var color := if el.fontColor != [] then el.fontColor else "#222";
    Style(Font(weight, size, family), color, el.textAlign.GetOr(Left))
  }

  /** The gap between wrapped lines: the element's own, else 1.2 times the resolved font size. */
  function LineHeight(el: TextElement): (h: real)
    ensures NumberSet(el.lineHeight) ==> h == el.lineHeight.value
    ensures !NumberSet(el.lineHeight) ==> h == ResolveStyle(el).font.size * 1.2 && h != 0.0
  {
    if NumberSet(el.lineHeight) then el.lineHeight.value else ResolveStyle(el).font.size * 1.2
  }

  /** A percentage of a canvas side, in pixels. */
  function PercentToPixel(percent: real, side: real): (px: real)
    ensures px * 100.0 == percent * side
    ensures 0.0 <= percent <= 100.0 && side >= 0.0 ==> 0.0 <= px <= side
    ensures percent == 0.0 ==> px == 0.0
    ensures percent == 100.0 ==> px == side
    ensures percent == 50.0 ==> px * 2.0 == side
  {
    var f := percent / 100.0;
    if 0.0 <= percent <= 100.0 && side >= 0.0 then ScaleWithin(f, side); f * side else f * side
  }

  lemma ScaleWithin(f: real, side: real)
    requires 0.0 <= f <= 1.0 && side >= 0.0
    ensures 0.0 <= f * side <= side
  {
    assert (1.0 - f) * side >= 0.0;
  }

  /** `ctx.measureText` at the element's resolved font, wrapping at the element's width. */
  function ElementLayout(measure: (Font, string) -> real, el: TextElement): (r: Layout)
    requires NumberSet(el.width)
    ensures r.maxWidth == el.width.value
  {
    var font := ResolveStyle(el).font;
    Layout((s: string) => measure(font, s), el.width.value)
  }

  /** The text of each fill. */
  function Texts(fills: seq<Fill>): (r: seq<string>)
    ensures |r| == |fills| && forall i :: 0 <= i < |fills| ==> r[i] == fills[i].text
  {
    seq(|fills|, i requires 0 <= i < |fills| => fills[i].text)
  }

  /** The draw commands for one element on a `canvasWidth` by `canvasHeight` canvas. */
  function RenderElement(measure: (Font, string) -> real, el: TextElement, name: string, canvasWidth: real, canvasHeight: real): ElementDraw
  {
    var style := ResolveStyle(el);
    var text := NameToken.SubstituteName(el.text, name);
    var xPos := PercentToPixel(el.x, canvasWidth);
    var yPos := PercentToPixel(el.y, canvasHeight);
    if NumberSet(el.width) then
      ElementDraw(style, PlaceLines(WrapText(ElementLayout(measure, el), text), xPos, yPos, LineHeight(el), el.width))
    else
      ElementDraw(style, [Fill(text, xPos, yPos, None)])
  }

  /** The elements in list order, later ones drawn over earlier ones. */
  function RenderElements(measure: (Font, string) -> real, els: seq<TextElement>, name: string, canvasWidth: real, canvasHeight: real): (r: seq<ElementDraw>)
    ensures |r| == |els|
    decreases |els|
  {
    if |els| == 0 then []
    else
      var front := RenderElements(measure, els[..|els| - 1], name, canvasWidth, canvasHeight);
      front + [RenderElement(measure, els[|els| - 1], name, canvasWidth, canvasHeight)]
  }

  /** The `onload` handler: nothing is drawn until the template decodes (`None` is a failed load). */
  function Render(measure: (Font, string) -> real, image: Option<Image>, els: seq<TextElement>, name: string): (r: Option<Surface>)
    ensures r.Some? <==> image.Some?
    ensures r.Some? ==> r.value.width == image.value.width && r.value.height == image.value.height
    ensures r.Some? ==> r.value.background == image.value && |r.value.draws| == |els|
  {
    match image
    case None => None
    case Some(img) =>
      Some(Surface(img.width, img.height, img, RenderElements(measure, els, name, img.width as real, img.height as real)))
  }

  /** Fills stacked from (x, y): every fill at x, fill `i` at `i` line heights below y. */
  ghost predicate Stacked(fills: seq<Fill>, x: real, y: real, lineHeight: real) {
    forall i :: 0 <= i < |fills| ==> fills[i].x == x && fills[i].y == y + (i as real) * lineHeight
  }

  /** Every line of an element is drawn at the anchor's x, line `i` at `i` line heights below the anchor. */
  lemma ElementAnchor(measure: (Font, string) -> real, el: TextElement, name: string, w: real, h: real)
    ensures var d := RenderElement(measure, el, name, w, h);
      && |d.fills| >= 1
      && d.style == ResolveStyle(el)
      && Stacked(d.fills, PercentToPixel(el.x, w), PercentToPixel(el.y, h), LineHeight(el))
  {
    var x, y, lh := PercentToPixel(el.x, w), PercentToPixel(el.y, h), LineHeight(el);
    var fills := RenderElement(measure, el, name, w, h).fills;
    if NumberSet(el.width) {
      var text := NameToken.SubstituteName(el.text, name);
      var lines := WrapText(ElementLayout(measure, el), text);
      assert |lines| >= 1 by {
        WrapTextLinesNonEmpty(ElementLayout(measure, el), text);
      }
      assert fills == PlaceLines(lines, x, y, lh, el.width) by {
        WrappedFills(measure, el, name, w, h);
      }
      PlaceLinesPositions(lines, x, y, lh, el.width);
    } else {
      UnwrappedWithoutWidth(measure, el, name, w, h);
      assert fills == [Fill(NameToken.SubstituteName(el.text, name), x, y, None)];
      assert y + (0 as real) * lh == y;
    }
  }

  lemma PlaceLinesPositions(lines: seq<string>, x: real, y: real, lineHeight: real, maxWidth: Option<real>)
    ensures Stacked(PlaceLines(lines, x, y, lineHeight, maxWidth), x, y, lineHeight)
  {
  }

  lemma PlaceOneLine(line: string, x: real, y: real, lineHeight: real, maxWidth: Option<real>)
    ensures PlaceLines([line], x, y, lineHeight, maxWidth) == [Fill(line, x, y, maxWidth)]
  {
    assert (0 as real) * lineHeight == 0.0;
  }

  lemma PlaceLinesTexts(lines: seq<string>, x: real, y: real, lineHeight: real, maxWidth: Option<real>)
    ensures var fills := PlaceLines(lines, x, y, lineHeight, maxWidth);
      Texts(fills) == lines && forall i :: 0 <= i < |fills| ==> fills[i].maxWidth == maxWidth
  {
  }

  /** With a width, the element's lines are its wrapped substituted text placed one below the other. */
  lemma WrappedFills(measure: (Font, string) -> real, el: TextElement, name: string, w: real, h: real)
    requires NumberSet(el.width)
    ensures RenderElement(measure, el, name, w, h).fills
      == PlaceLines(WrapText(ElementLayout(measure, el), NameToken.SubstituteName(el.text, name)),
                    PercentToPixel(el.x, w), PercentToPixel(el.y, h), LineHeight(el), el.width)
  {
  }

  /** Without a width the substituted text is drawn as one unwrapped line. */
  lemma UnwrappedWithoutWidth(measure: (Font, string) -> real, el: TextElement, name: string, w: real, h: real)
    requires !NumberSet(el.width)
    ensures RenderElement(measure, el, name, w, h).fills
      == [Fill(NameToken.SubstituteName(el.text, name), PercentToPixel(el.x, w), PercentToPixel(el.y, h), None)]
  {
  }

  /** With a width, the drawn lines together hold the substituted text's words, in order and whole. */
  lemma WrappedKeepsWords(measure: (Font, string) -> real, el: TextElement, name: string, w: real, h: real)
    requires NumberSet(el.width)
    ensures var fills := RenderElement(measure, el, name, w, h).fills;
      && (forall i :: 0 <= i < |fills| ==> fills[i].maxWidth == el.width)
      && Concat(Texts(fills)) == Line(Split(NameToken.SubstituteName(el.text, name), ' '))
  {
    var text := NameToken.SubstituteName(el.text, name);
    var lay := ElementLayout(measure, el);
    WrappedFills(measure, el, name, w, h);
    PlaceLinesTexts(WrapText(lay, text), PercentToPixel(el.x, w), PercentToPixel(el.y, h), LineHeight(el), el.width);
    WrapTextKeepsWords(lay, text);
  }

  /** One draw per element, in list order, each depending on its own element only. */
  lemma {:induction false} RenderElementsInOrder(measure: (Font, string) -> real, els: seq<TextElement>, name: string, w: real, h: real)
    ensures |RenderElements(measure, els, name, w, h)| == |els|
    ensures forall i :: 0 <= i < |els| ==> RenderElements(measure, els, name, w, h)[i] == RenderElement(measure, els[i], name, w, h)
    decreases |els|
  {
    if |els| > 0 {
      var front := els[..|els| - 1];
      RenderElementsInOrder(measure, front, name, w, h);
      var r := RenderElements(measure, els, name, w, h);
      var last := RenderElement(measure, els[|els| - 1], name, w, h);
      assert r == RenderElements(measure, front, name, w, h) + [last];
      forall i | 0 <= i < |els| ensures r[i] == RenderElement(measure, els[i], name, w, h) {
        if i < |els| - 1 {
          assert els[i] == front[i];
        }
      }
    }
  }

  /** Rendering two lists of elements one after the other is rendering their concatenation. */
  lemma RenderElementsAppend(measure: (Font, string) -> real, a: seq<TextElement>, b: seq<TextElement>, name: string, w: real, h: real)
    ensures RenderElements(measure, a + b, name, w, h) == RenderElements(measure, a, name, w, h) + RenderElements(measure, b, name, w, h)
  {
    RenderElementsInOrder(measure, a + b, name, w, h);
    RenderElementsInOrder(measure, a, name, w, h);
    RenderElementsInOrder(measure, b, name, w, h);
  }

  /** The canvas takes the image's natural size; a failed load draws nothing. */
  lemma RenderSurfaceSize(measure: (Font, string) -> real, image: Option<Image>, els: seq<TextElement>, name: string)
    ensures Render(measure, image, els, name).Some? <==> image.Some?
    ensures image.Some? ==> var s := Render(measure, image, els, name).value;
      s.width == image.value.width && s.height == image.value.height && |s.draws| == |els|
  {
    if image.Some? {
      RenderElementsInOrder(measure, els, name, image.value.width as real, image.value.height as real);
    }
  }

  /** The element of the 800 by 600 scenario. */
  function HelloElement(): TextElement {
    TextElement("t", "Hello {name}!", 50.0, 50.0, 20.0, "#222", None, None, None, Some(200.0), None, None)
  }

  lemma HelloAdaText()
    ensures NameToken.SubstituteName(HelloElement().text, "Ada") == "Hello Ada!"
  {
    var pieces := ["Hello ", "!"];
    assert Join(pieces, NameToken.Token) == HelloElement().text;
    assert Join(pieces, "Ada") == "Hello Ada!";
    NameToken.NoBraceNoToken(pieces[0]);
    NameToken.NoBraceNoToken(pieces[1]);
    NameToken.SubstituteJoinedPieces(pieces, "Ada");
  }

  lemma HelloAdaSplit()
    ensures Split("Hello Ada!", ' ') == ["Hello", "Ada!"]
  {
    var words := ["Hello", "Ada!"];
    assert Join(words, " ") == "Hello Ada!";
    SplitJoin(words, ' ');
  }

  lemma HelloAdaLine()
    ensures Line(["Hello", "Ada!"]) == "Hello Ada! "
  {
    LineSnoc([], "Hello");
    LineSnoc(["Hello"], "Ada!");
    assert [] + ["Hello"] == ["Hello"];
    assert ["Hello"] + ["Ada!"] == ["Hello", "Ada!"];
  }

  /**
   * An 800 by 600 template, one element "Hello {name}!" at (50%, 50%) with width 200 and size 20,
   * recipient "Ada": the canvas is 800 by 600 and the first line starts at (400, 300).
   */
  lemma HelloAdaScenario(measure: (Font, string) -> real)
    ensures var s := Render(measure, Some(Image(800, 600)), [HelloElement()], "Ada");
      && s.Some? && s.value.width == 800 && s.value.height == 600 && |s.value.draws| == 1
      && |s.value.draws[0].fills| >= 1
      && s.value.draws[0].fills[0].x == 400.0 && s.value.draws[0].fills[0].y == 300.0
      && s.value.draws[0] == RenderElement(measure, HelloElement(), "Ada", 800.0, 600.0)
  {
    RenderSurfaceSize(measure, Some(Image(800, 600)), [HelloElement()], "Ada");
    RenderElementsInOrder(measure, [HelloElement()], "Ada", 800.0, 600.0);
    ElementAnchor(measure, HelloElement(), "Ada", 800.0, 600.0);
  }

  /** The scenario's lines hold "Hello Ada!", each word followed by its space. */
  lemma HelloAdaLines(measure: (Font, string) -> real)
    ensures Concat(Texts(RenderElement(measure, HelloElement(), "Ada", 800.0, 600.0).fills)) == "Hello Ada! "
  {
    HelloAdaText();
    HelloAdaSplit();
    HelloAdaLine();
    WrappedKeepsWords(measure, HelloElement(), "Ada", 800.0, 600.0);
  }

  /** When "Hello Ada! " measures at most 200 pixels at 20px Arial, it is a single line at (400, 300). */
  lemma HelloAdaOneLine(measure: (Font, string) -> real)
    requires measure(Font("normal", 20.0, "Arial"), "Hello Ada! ") <= 200.0
    ensures RenderElement(measure, HelloElement(), "Ada", 800.0, 600.0).fills == [Fill("Hello Ada! ", 400.0, 300.0, Some(200.0))]
  {
    var el := HelloElement();
    var lines := WrapText(ElementLayout(measure, el), NameToken.SubstituteName(el.text, "Ada"));
    assert lines == ["Hello Ada! "] by {
      HelloAdaText();
      HelloAdaWrap(measure);
    }
    assert PercentToPixel(el.x, 800.0) == 400.0 && PercentToPixel(el.y, 600.0) == 300.0;
    WrappedFills(measure, el, "Ada", 800.0, 600.0);
    PlaceOneLine("Hello Ada! ", 400.0, 300.0, LineHeight(el), el.width);
  }

  lemma HelloAdaWrap(measure: (Font, string) -> real)
    requires measure(Font("normal", 20.0, "Arial"), "Hello Ada! ") <= 200.0
    ensures WrapText(ElementLayout(measure, HelloElement()), "Hello Ada!") == ["Hello Ada! "]
  {
    var lay := ElementLayout(measure, HelloElement());
    var words := ["Hello", "Ada!"];
    assert !lay.Overflows(LinePrefix(words, 2)) by {
      assert ResolveStyle(HelloElement()).font == Font("normal", 20.0, "Arial");
      assert words[..2] == words;
      HelloAdaLine();
    }
    assert WrapGroups(lay, words) == [words] by {
      OneLineWhenItFits(lay, words);
    }
    assert Lines([words]) == ["Hello Ada! "] by {
      HelloAdaLine();
    }
    HelloAdaSplit();
  }
}
