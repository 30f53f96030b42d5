/** The glyph of a checkbox: it follows the state, and nothing else in the control changes. */
module GlyphExport {
  import opened Common
  import opened DocumentModel
  import opened FreshIds
  import opened Ooxml
  import opened XmlEdits
  import opened ControlExport
  import opened ImportReads

  /** A code point an XML text can hold. */
  predicate Scalar(n: nat) {
    n == 9 || n == 10 || n == 13 || 0x20 <= n < 0xD800 || 0xE000 <= n < 0xFFFE || 0x10000 <= n < 0x110000
  }

  /** A number that is a character at all. */
  predicate CodePoint(n: nat) {
    n < 0xD800 || 0xE000 <= n < 0x110000
  }

  predicate HexDigit(c: char) {
    '0' <= c <= '9' || 'a' <= c <= 'f' || 'A' <= c <= 'F'
  }

  // ----- what the reader sees

  /** What the text elements among these say, in order. */
  function LinesIn(all: seq<Xml>): seq<string> {
    if all == [] then [] else LinesIn(all[..|all| - 1]) + if all[|all| - 1].tag.T? then [all[|all| - 1].text] else []
  }

  /** The texts of an element, in document order. */
  function Lines(x: Xml): seq<string> {
    LinesIn(Listing(x))
  }

  /** A text is exactly this one character. */
  predicate IsGlyph(text: string, code: nat) {
    |text| == 1 && text[0] as nat == code
  }

  /** The glyph of a state is the code point its marker gives, in at most six hexadecimal digits; a checkbox that gives
      none has the usual boxes. */
  ghost predicate GlyphRead(x: Xml, checked: bool, glyph: nat) {
    var control := Under(x.children, SdtPr, CheckBox);
    && control.Some?
    && (var marker := First(control.value.children, if checked then CheckedState else UncheckedState);
        var given := marker.Some? && Val14 in marker.value.attrs && marker.value.attrs[Val14] != [];
        var code := if given then marker.value.attrs[Val14] else if checked then "2612" else "2610";
        && |code| <= 6 && (forall c | c in code :: HexDigit(c))
        && glyph == ValueOf(code, 16) && glyph <= 0x10FFFF)
  }

  ghost predicate GlyphsRead(x: Xml, checked: bool, wanted: nat, other: nat) {
    GlyphRead(x, checked, wanted) && GlyphRead(x, !checked, other)
  }

  /** The same elements with the same attributes, but that the glyph `other` of a text has given way to `wanted`. */
  ghost predicate Repainted(a: seq<Xml>, b: seq<Xml>, other: nat, wanted: nat) {
    && |a| == |b|
    && forall i | 0 <= i < |a| ::
         && b[i].tag == a[i].tag && |b[i].children| == |a[i].children|
         && if a[i].tag.T? && IsGlyph(a[i].text, other)
            then IsGlyph(b[i].text, wanted) && b[i].attrs == a[i].attrs[Space := "preserve"]
            else b[i].text == a[i].text && b[i].attrs == a[i].attrs
  }

  ghost predicate Relined(a: seq<string>, b: seq<string>, other: nat, wanted: nat) {
    && |a| == |b|
    && forall i | 0 <= i < |a| :: if IsGlyph(a[i], other) then IsGlyph(b[i], wanted) else b[i] == a[i]
  }

  /** A checkbox redrawn for a state: every text that was exactly the glyph of the other state is exactly that of this
      one, every other text is as before, and so is everything else in the content. */
  ghost predicate Follows(before: Xml, after: Xml, checked: bool) {
    exists wanted: nat, other: nat ::
      && GlyphsRead(before, checked, wanted, other)
      && Relined(Lines(before), Lines(after), other, wanted)
      && Repainted(ListingAll(ContentOf(before)), ListingAll(ContentOf(after)), other, wanted)
  }

  /** Both glyphs can be told, and the wanted one can be written wherever the other is shown. */
  ghost predicate Drawable(x: Xml, checked: bool) {
    exists wanted: nat, other: nat ::
      && GlyphsRead(x, checked, wanted, other)
      && ((exists line :: line in Lines(x) && IsGlyph(line, other)) ==> Scalar(wanted))
  }

  // ----- how it is done

  /** The character a marker of a checkbox stands for: nothing if the marker is no code point. */
  function GlyphOf(control: Xml, marker: Tag, default: string): Option<nat> {
    var found := First(control.children, marker);
    var given := if found.None? then default else ValueOr(found.value, Val14, default);
    var value := if given == [] then default else given;
    if |value| <= 6 && (forall c | c in value :: HexDigit(c)) && ValueOf(value, 16) <= 0x10FFFF
    then Some(ValueOf(value, 16)) else None
  }

  /** The glyph follows the state; nothing is written that XML cannot hold. */
  function Redrawn(x: Xml, previous: nat, glyph: nat): Option<Xml> {
    if !CodePoint(previous) || [previous as char] !in Lines(x) then Some(x)
    else if !Scalar(glyph) then None
    else Some(Reglyph(x, previous as char, glyph as char))
  }

  /** A checkbox in the other state, its glyph following; nothing if a glyph cannot be told or written. */
  function Switched(x: Xml, checked: bool): Option<Xml> {
    if Under(x.children, SdtPr, CheckBox).None? then None else
    var control := Under(x.children, SdtPr, CheckBox).value;
    var on, off := GlyphOf(control, CheckedState, "2612"), GlyphOf(control, UncheckedState, "2610");
    if on.None? || off.None? then None else
    Redrawn(Ticked(x, checked), if checked then off.value else on.value, if checked then on.value else off.value)
  }

  // ----- texts of lists

  lemma {:induction false} LinesConcat(a: seq<Xml>, b: seq<Xml>)
    ensures LinesIn(a + b) == LinesIn(a) + LinesIn(b)
    decreases |b|
  {
    if b == [] {
      assert a + b == a;
    } else {
      var last := b[|b| - 1];
      var own := if last.tag.T? then [last.text] else [];
      assert (a + b)[..|a + b| - 1] == a + b[..|b| - 1];
      LinesConcat(a, b[..|b| - 1]);
      assert LinesIn(a) + (LinesIn(b[..|b| - 1]) + own) == LinesIn(a) + LinesIn(b[..|b| - 1]) + own;
    }
  }

  lemma LinesOf(x: Xml)
    ensures Lines(x) == (if x.tag.T? then [x.text] else []) + LinesIn(ListingAll(x.children))
  {
    LinesConcat([x], ListingAll(x.children));
    assert [x][..0] == [] && LinesIn([x]) == if x.tag.T? then [x.text] else [];
  }

  lemma LinesFront(x: Xml, rest: seq<Xml>)
    ensures LinesIn(ListingAll([x] + rest)) == Lines(x) + LinesIn(ListingAll(rest))
  {
    FrontListing([x] + rest);
    assert ([x] + rest)[1..] == rest;
    LinesConcat(Listing(x), ListingAll(rest));
  }

  /** Elements that differ neither in text nor in the texts below say the same. */
  lemma SameLines(x: Xml, y: Xml)
    requires x.tag == y.tag && x.text == y.text
    requires LinesIn(ListingAll(x.children)) == LinesIn(ListingAll(y.children))
    ensures Lines(x) == Lines(y)
  {
    LinesOf(x);
    LinesOf(y);
  }

  // ----- setting the state changes no text

  lemma {:induction false} PutLines(xs: seq<Xml>, y: Xml)
    requires Lines(y) == if First(xs, y.tag).Some? then Lines(First(xs, y.tag).value) else []
    ensures LinesIn(ListingAll(Put(xs, y))) == LinesIn(ListingAll(xs))
  {
    hide Lines, LinesIn;
    if xs == [] {
      LinesFront(y, []);
      assert [y] + [] == [y];
      NoLines();
    } else {
      var x, rest := xs[0], xs[1..];
      assert xs == [x] + rest;
      LinesFront(x, rest);
      if x.tag == y.tag {
        LinesFront(y, rest);
      } else {
        PutLines(rest, y);
        LinesFront(x, Put(rest, y));
      }
    }
  }

  lemma NoLines()
    ensures LinesIn(ListingAll([])) == []
  {
  }

  lemma {:induction false} PutUnderLines(xs: seq<Xml>, a: Tag, y: Xml)
    requires Under(xs, a, y.tag).Some? && Lines(y) == Lines(Under(xs, a, y.tag).value)
    ensures LinesIn(ListingAll(PutUnder(xs, a, y))) == LinesIn(ListingAll(xs))
  {
    hide Lines, LinesIn, Put, First;
    var x, rest := xs[0], xs[1..];
    assert xs == [x] + rest;
    LinesFront(x, rest);
    if x.tag == a && First(x.children, y.tag).Some? {
      var z := x.(children := Put(x.children, y));
      PutLines(x.children, y);
      SameLines(x, z);
      LinesFront(z, rest);
    } else {
      PutUnderLines(rest, a, y);
      LinesFront(x, PutUnder(rest, a, y));
    }
  }

  lemma StateLines(control: Xml, checked: bool)
    ensures WithState(control, checked).tag == control.tag && Lines(WithState(control, checked)) == Lines(control)
  {
    hide Put, LinesIn, Lines, First;
    var prior := First(control.children, Checked);
    var state := if prior.Some? then prior.value else Element(Checked, map[], [], []);
    var after := state.(attrs := state.attrs[Val14 := if checked then "1" else "0"]);
    SameLines(state, after);
    LinesOf(Element(Checked, map[], [], []));
    NoLines();
    PutLines(control.children, after);
    SameLines(control, WithState(control, checked));
  }

  lemma TickedLines(x: Xml, checked: bool)
    requires Under(x.children, SdtPr, CheckBox).Some?
    ensures Lines(Ticked(x, checked)) == Lines(x)
  {
    hide PutUnder, LinesIn, Lines, Under, WithState;
    var control := Under(x.children, SdtPr, CheckBox).value;
    StateLines(control, checked);
    PutUnderLines(x.children, SdtPr, WithState(control, checked));
    SameLines(x, Ticked(x, checked));
  }

  // ----- exchanging the glyph

  lemma RepaintedOn(a: seq<Xml>, b: seq<Xml>, c: seq<Xml>, d: seq<Xml>, other: nat, wanted: nat)
    requires Repainted(a, b, other, wanted) && Repainted(c, d, other, wanted)
    ensures Repainted(a + c, b + d, other, wanted)
  {
  }

  lemma {:induction false} ReglyphRepaints(x: Xml, before: char, after: char)
    ensures Repainted(Listing(x), Listing(Reglyph(x, before, after)), before as nat, after as nat)
    decreases x, 1
  {
    hide ReglyphAll, ListingAll;
    var y := Reglyph(x, before, after);
    ReglyphAllRepaints(x.children, before, after);
    ReglyphItems(x.children, before, after);
    assert Repainted([x], [y], before as nat, after as nat);
    RepaintedOn([x], [y], ListingAll(x.children), ListingAll(y.children), before as nat, after as nat);
  }

  lemma {:induction false} ReglyphAllRepaints(xs: seq<Xml>, before: char, after: char)
    ensures Repainted(ListingAll(xs), ListingAll(ReglyphAll(xs, before, after)), before as nat, after as nat)
    decreases xs, 0
  {
    hide Repainted, Reglyph, Listing;
    if xs == [] {
      NothingRepainted(before as nat, after as nat);
    } else {
      ReglyphRepaints(xs[0], before, after);
      ReglyphAllRepaints(xs[1..], before, after);
      var y, ys := Reglyph(xs[0], before, after), ReglyphAll(xs[1..], before, after);
      FrontListing(xs);
      FrontListing([y] + ys);
      assert ([y] + ys)[1..] == ys;
      RepaintedOn(Listing(xs[0]), Listing(y), ListingAll(xs[1..]), ListingAll(ys), before as nat, after as nat);
    }
  }

  lemma NothingRepainted(other: nat, wanted: nat)
    ensures Repainted(ListingAll([]), ListingAll([]), other, wanted)
  {
  }

  lemma {:induction false} RepaintedLines(a: seq<Xml>, b: seq<Xml>, other: nat, wanted: nat)
    requires Repainted(a, b, other, wanted)
    ensures Relined(LinesIn(a), LinesIn(b), other, wanted)
  {
    if a != [] {
      RepaintedLines(a[..|a| - 1], b[..|b| - 1], other, wanted);
    }
  }

  /** Without the old glyph, nothing is to be exchanged. */
  lemma {:induction false} NotShown(all: seq<Xml>, other: nat, wanted: nat)
    requires forall line | line in LinesIn(all) :: !IsGlyph(line, other)
    ensures Repainted(all, all, other, wanted) && Relined(LinesIn(all), LinesIn(all), other, wanted)
  {
    forall i | 0 <= i < |all| && all[i].tag.T? ensures !IsGlyph(all[i].text, other) {
      assert all == all[..i] + ([all[i]] + all[i + 1..]);
      LinesConcat(all[..i], [all[i]] + all[i + 1..]);
      LinesConcat([all[i]], all[i + 1..]);
      assert [all[i]][..0] == [] && LinesIn([all[i]]) == [all[i].text];
      assert all[i].text in LinesIn(all);
    }
  }

  /** The texts of the content are texts of the element. */
  lemma ContentLines(x: Xml)
    ensures forall line | line in LinesIn(ListingAll(ContentOf(x))) :: line in Lines(x)
  {
    hide LinesIn, Lines;
    LinesOf(x);
    NoLines();
    if Holder(x).Some? {
      FirstLines(x.children, SdtContent);
      LinesOf(Holder(x).value);
    }
  }

  lemma {:induction false} FirstLines(xs: seq<Xml>, tag: Tag)
    requires First(xs, tag).Some?
    ensures forall line | line in Lines(First(xs, tag).value) :: line in LinesIn(ListingAll(xs))
  {
    hide LinesIn, Lines;
    LinesFront(xs[0], xs[1..]);
    assert xs == [xs[0]] + xs[1..];
    if xs[0].tag != tag {
      FirstLines(xs[1..], tag);
    }
  }

  lemma RedrawnShows(x: Xml, other: nat, wanted: nat)
    requires Redrawn(x, other, wanted).Some?
    ensures var y := Redrawn(x, other, wanted).value;
      Relined(Lines(x), Lines(y), other, wanted)
      && Repainted(ListingAll(ContentOf(x)), ListingAll(ContentOf(y)), other, wanted)
  {
    hide LinesIn, Lines, Reglyph, ReglyphAll, Listing, ListingAll, Repainted, Relined;
    if CodePoint(other) && [other as char] in Lines(x) {
      var a, b := other as char, wanted as char;
      ReglyphRepaints(x, a, b);
      RelinedWhole(x, Reglyph(x, a, b), other, wanted);
      ReglyphAllRepaints(ContentOf(x), a, b);
      ReglyphContent(x, a, b);
    } else {
      Showing(x, other);
      ContentLines(x);
      NotShownWhole(x, other, wanted);
      NotShown(ListingAll(ContentOf(x)), other, wanted);
    }
  }

  lemma RelinedWhole(x: Xml, y: Xml, other: nat, wanted: nat)
    requires Repainted(Listing(x), Listing(y), other, wanted)
    ensures Relined(Lines(x), Lines(y), other, wanted)
  {
    RepaintedLines(Listing(x), Listing(y), other, wanted);
  }

  lemma NotShownWhole(x: Xml, other: nat, wanted: nat)
    requires forall line | line in Lines(x) :: !IsGlyph(line, other)
    ensures Relined(Lines(x), Lines(x), other, wanted)
  {
    NotShown(Listing(x), other, wanted);
  }

  lemma ReglyphContent(x: Xml, before: char, after: char)
    ensures ContentOf(Reglyph(x, before, after)) == ReglyphAll(ContentOf(x), before, after)
  {
    hide First, ReglyphAll;
    ReglyphParts(x, before, after);
    ReglyphFirst(x.children, before, after, SdtContent);
    if Holder(x).Some? {
      ReglyphParts(Holder(x).value, before, after);
    } else {
      NoneReglyphed(before, after);
    }
  }

  lemma NoneReglyphed(before: char, after: char)
    ensures ReglyphAll([], before, after) == []
  {
  }

  // ----- the checkbox

  lemma RedrawnBox(x: Xml, previous: nat, glyph: nat)
    requires Box(x) && Redrawn(x, previous, glyph).Some?
    ensures var y := Redrawn(x, previous, glyph).value; Box(y) && IsChecked(y) == IsChecked(x)
  {
    hide Box, IsChecked, Reglyph, Lines;
    if CodePoint(previous) && [previous as char] in Lines(x) {
      ReglyphBox(x, previous as char, glyph as char);
    }
  }

  /** Markers are read as they stand. */
  lemma MarkersRead(x: Xml, checked: bool, glyph: nat)
    requires Under(x.children, SdtPr, CheckBox).Some?
    ensures var control := Under(x.children, SdtPr, CheckBox).value;
      GlyphRead(x, checked, glyph) <==>
        Some(glyph) ==
          if checked then GlyphOf(control, CheckedState, "2612") else GlyphOf(control, UncheckedState, "2610")
  {
    hide Under, First, ValueOf;
  }

  /** Switching succeeds exactly if the glyphs can be told and written. */
  lemma SwitchedWhen(x: Xml, checked: bool)
    requires Box(x)
    ensures Switched(x, checked).Some? <==> Drawable(x, checked)
  {
    hide Lines, LinesIn, Under, GlyphOf, GlyphRead, Ticked, Reglyph;
    BoxControl(x);
    TickedLines(x, checked);
    var control := Under(x.children, SdtPr, CheckBox).value;
    var on, off := GlyphOf(control, CheckedState, "2612"), GlyphOf(control, UncheckedState, "2610");
    var wanted, other := if checked then on else off, if checked then off else on;
    forall n: nat, m: nat ensures GlyphsRead(x, checked, n, m) <==> wanted == Some(n) && other == Some(m) {
      MarkersRead(x, checked, n);
      MarkersRead(x, !checked, m);
    }
    if wanted.Some? && other.Some? {
      Showing(x, other.value);
      var shown := exists line :: line in Lines(x) && IsGlyph(line, other.value);
      assert GlyphsRead(x, checked, wanted.value, other.value);
      assert Drawable(x, checked) <==> shown ==> Scalar(wanted.value);
      assert Switched(x, checked) == Redrawn(Ticked(x, checked), other.value, wanted.value);
    }
  }

  lemma Showing(x: Xml, other: nat)
    ensures (exists line :: line in Lines(x) && IsGlyph(line, other)) <==>
      CodePoint(other) && [other as char] in Lines(x)
  {
    hide Lines;
    if CodePoint(other) && [other as char] in Lines(x) {
      assert IsGlyph([other as char], other);
    }
    forall line | line in Lines(x) && IsGlyph(line, other) ensures CodePoint(other) && line == [other as char] {
    }
  }

  lemma SwitchedBox(x: Xml, checked: bool)
    requires Box(x) && Switched(x, checked).Some?
    ensures var y := Switched(x, checked).value; Box(y) && IsChecked(y) == checked && Follows(x, y, checked)
  {
    hide Box, IsChecked, Ticked, GlyphOf, GlyphRead, Redrawn, Under, Lines, Relined, Repainted, ListingAll, ContentOf;
    BoxControl(x);
    var control := Under(x.children, SdtPr, CheckBox).value;
    var on, off := GlyphOf(control, CheckedState, "2612").value, GlyphOf(control, UncheckedState, "2610").value;
    var wanted, other := if checked then on else off, if checked then off else on;
    MarkersRead(x, checked, wanted);
    MarkersRead(x, !checked, other);
    TickedBox(x, checked);
    TickedLines(x, checked);
    BoxTicked(x, checked);
    RedrawnBox(Ticked(x, checked), other, wanted);
    RedrawnShows(Ticked(x, checked), other, wanted);
    assert GlyphsRead(x, checked, wanted, other);
  }

  lemma BoxTicked(x: Xml, checked: bool)
    requires Box(x)
    ensures ContentOf(Ticked(x, checked)) == ContentOf(x)
  {
    hide Under, Ticked, ContentOf, OnlyRuns;
    TickedFinds(x, checked);
  }

  lemma BoxControl(x: Xml)
    requires Box(x)
    ensures Under(x.children, SdtPr, CheckBox).Some?
  {
    hide Under, OnlyRuns, ContentOf;
  }
}
