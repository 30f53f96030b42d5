/** Writing one run: its characters and its formatting. */
module RunExport {
  import opened Common
  import opened DocumentModel
  import opened Rebase
  import opened Ooxml
  import opened Reimport
  import opened XmlEdits

  // ----- characters

  /** `str.split` at one character. */
  function SplitAt(s: string, c: char): (r: seq<string>)
    ensures r != []
  {
    if s == [] then [[]] else
    var n := |s| - 1;
    var before := SplitAt(s[..n], c);
    if s[n] == c then before + [[]] else before[..|before| - 1] + [before[|before| - 1] + [s[n]]]
  }

  /** The pieces with the character between them. */
  function JoinWith(pieces: seq<string>, c: char): string
    requires pieces != []
  {
    var n := |pieces| - 1;
    if n == 0 then pieces[0] else JoinWith(pieces[..n], c) + [c] + pieces[n]
  }

  lemma {:induction false} SplitJoins(s: string, c: char)
    ensures JoinWith(SplitAt(s, c), c) == s
    ensures forall i | 0 <= i < |SplitAt(s, c)| ::
      c !in SplitAt(s, c)[i] && forall d | d in SplitAt(s, c)[i] :: d in s
  {
    if s != [] {
      var n := |s| - 1;
      SplitJoins(s[..n], c);
      var before := SplitAt(s[..n], c);
      var m := |before| - 1;
      assert s == s[..n] + [s[n]];
      if s[n] == c {
        assert (before + [[]])[..|before|] == before;
      } else {
        assert (before[..m] + [before[m] + [s[n]]])[..m] == before[..m];
      }
    }
  }

  /** A stretch of text that keeps its spaces, a tab, or a line break. */
  predicate Character(x: Xml) {
    && x.children == []
    && match x.tag
       case T => x.attrs == map[Space := "preserve"] && x.text != [] && '\n' !in x.text && '\t' !in x.text
       case Tab => x.attrs == map[] && x.text == []
       case Br => x.attrs == map[] && x.text == []
       case _ => false
  }

  /** Children of a run that are characters only. */
  ghost predicate Characters(xs: seq<Xml>) {
    forall x | x in xs :: Character(x)
  }

  lemma RunTextOne(xs: seq<Xml>, x: Xml)
    ensures RunText(xs + [x]) == RunText(xs) + PartText(x)
  {
    assert (xs + [x])[..|xs|] == xs;
  }

  function Mark(tag: Tag): Xml {
    Element(tag, map[], [], [])
  }

  function TextElement(text: string): Xml {
    Element(T, map[Space := "preserve"], text, [])
  }

  /** One line: its stretches between tabs. */
  method WriteLine(line: string) returns (xs: seq<Xml>)
    requires '\n' !in line
    ensures Characters(xs) && RunText(xs) == line
  {
    hide Character, RunText, Characters, JoinWith, SplitAt;
    var pieces := SplitAt(line, '\t');
    SplitJoins(line, '\t');
    xs := [];
    NothingWritten();
    for i := 0 to |pieces|
      invariant Characters(xs) && RunText(xs) == if i == 0 then [] else JoinWith(pieces[..i], '\t')
    {
      JoinNext(pieces, i, '\t');
      MarkWrites(Tab);
      if i > 0 {
        WriteOne(xs, Mark(Tab));
        xs := xs + [Mark(Tab)];
      }
      if pieces[i] != [] {
        TextWrites(pieces[i]);
        WriteOne(xs, TextElement(pieces[i]));
        xs := xs + [TextElement(pieces[i])];
      }
    }
    assert pieces[..|pieces|] == pieces;
  }

  lemma NothingWritten()
    ensures RunText([]) == [] && Characters([])
  {
  }

  lemma WriteOne(xs: seq<Xml>, x: Xml)
    requires Characters(xs) && Character(x)
    ensures Characters(xs + [x]) && RunText(xs + [x]) == RunText(xs) + PartText(x)
  {
    hide Character;
    RunTextOne(xs, x);
  }

  lemma JoinNext(pieces: seq<string>, i: nat, c: char)
    requires i < |pieces|
    ensures JoinWith(pieces[..i + 1], c) == if i == 0 then pieces[0] else JoinWith(pieces[..i], c) + [c] + pieces[i]
  {
    assert pieces[..i + 1][..i] == pieces[..i];
  }

  lemma MarkWrites(tag: Tag)
    requires tag.Tab? || tag.Br?
    ensures Character(Mark(tag)) && (tag.Tab? ==> PartText(Mark(tag)) == "\t")
      && (tag.Br? ==> PartText(Mark(tag)) == "\n")
  {
  }

  lemma TextWrites(s: string)
    requires s != [] && '\n' !in s && '\t' !in s
    ensures Character(TextElement(s)) && PartText(TextElement(s)) == s
  {
  }

  lemma WriteMore(a: seq<Xml>, b: seq<Xml>)
    requires Characters(a) && Characters(b)
    ensures Characters(a + b) && RunText(a + b) == RunText(a) + RunText(b)
  {
    hide Character, RunText;
    RunTextConcat(a, b);
  }

  lemma {:induction false} RunTextConcat(a: seq<Xml>, b: seq<Xml>)
    ensures RunText(a + b) == RunText(a) + RunText(b)
    decreases |b|
  {
    hide PartText, RunText;
    if b == [] {
      assert a + b == a;
      NothingWritten();
    } else {
      var n := |b| - 1;
      assert a + b == (a + b[..n]) + [b[n]] && b == b[..n] + [b[n]];
      RunTextConcat(a, b[..n]);
      RunTextOne(a + b[..n], b[n]);
      RunTextOne(b[..n], b[n]);
      Associate(RunText(a), RunText(b[..n]), PartText(b[n]));
    }
  }

  /** The characters of a run: lines with breaks between them. Read again, they are the text. */
  method WriteText(value: string) returns (xs: seq<Xml>)
    ensures Characters(xs) && RunText(xs) == value
  {
    hide Character, RunText, Characters, JoinWith, SplitAt;
    var lines := SplitAt(value, '\n');
    SplitJoins(value, '\n');
    xs := [];
    NothingWritten();
    for i := 0 to |lines|
      invariant Characters(xs) && RunText(xs) == if i == 0 then [] else JoinWith(lines[..i], '\n')
    {
      JoinNext(lines, i, '\n');
      MarkWrites(Br);
      if i > 0 {
        WriteOne(xs, Mark(Br));
        xs := xs + [Mark(Br)];
      }
      var line := WriteLine(lines[i]);
      WriteMore(xs, line);
      xs := xs + line;
    }
    assert lines[..|lines|] == lines;
  }

  // ----- formatting

  function Toggle(tag: Tag, selected: bool): Xml {
    Element(tag, map[Val := if tag.U? then (if selected then "single" else "none") else if selected then "1" else "0"],
      [], [])
  }

  /** One property chosen in the editor: the old ones go, a new one comes last. */
  function Toggled(properties: seq<Xml>, tag: Tag, selected: Option<bool>): seq<Xml> {
    if selected.None? then properties else Without(properties, tag) + [Toggle(tag, selected.value)]
  }

  function Chooses(properties: seq<Xml>, format: Format): seq<Xml> {
    Toggled(Toggled(Toggled(properties, B, format.bold), I, format.italic), U, format.underline)
  }

  /** The run properties with the formatting chosen in the editor. */
  function Formatted(kept: seq<Xml>, format: Format): seq<Xml> {
    var all := if kept == [] then [Mark(RPr)] else kept;
    [all[0].(children := Chooses(all[0].children, format))] + all[1..]
  }

  lemma OneFirst(x: Xml, tag: Tag)
    ensures First([x], tag) == if x.tag == tag then Some(x) else None
  {
    assert [x][1..] == [];
  }

  lemma ToggledFirst(properties: seq<Xml>, tag: Tag, selected: Option<bool>, other: Tag)
    ensures First(Toggled(properties, tag, selected), other) ==
      if selected.Some? && other == tag then Some(Toggle(tag, selected.value)) else First(properties, other)
  {
    hide First, Without;
    if selected.Some? {
      WithoutFirst(properties, tag, other);
      OneFirst(Toggle(tag, selected.value), other);
      FirstConcat(Without(properties, tag), [Toggle(tag, selected.value)], other);
    }
  }

  function Selected(format: Format, tag: Tag): Option<bool> {
    match tag case B => format.bold case I => format.italic case U => format.underline case _ => None
  }

  lemma ChoosesFirst(properties: seq<Xml>, format: Format, tag: Tag)
    requires tag.B? || tag.I? || tag.U?
    ensures var selected := Selected(format, tag);
      First(Chooses(properties, format), tag) ==
        if selected.Some? then Some(Toggle(tag, selected.value)) else First(properties, tag)
  {
    hide First, Toggled;
    var bold := Toggled(properties, B, format.bold);
    var italic := Toggled(bold, I, format.italic);
    ToggledFirst(properties, B, format.bold, tag);
    ToggledFirst(bold, I, format.italic, tag);
    ToggledFirst(italic, U, format.underline, tag);
  }

  /** A chosen toggle decides; the others stay. */
  lemma FormattedOn(kept: seq<Xml>, format: Format, tag: Tag)
    requires (forall x | x in kept :: x.tag.RPr?) && (tag.B? || tag.I? || tag.U?)
    ensures On(Under(Formatted(kept, format), RPr, tag)) == Chosen(Selected(format, tag), On(Under(kept, RPr, tag)))
  {
    hide Chooses;
    var all := if kept == [] then [Mark(RPr)] else kept;
    var r := Formatted(kept, format);
    assert r[1..] == all[1..] && all[0].tag.RPr?;
    ChoosesFirst(all[0].children, format, tag);
    if kept == [] {
      assert First([], tag) == None && Under([], RPr, tag) == None;
    }
  }

  lemma FormattedStyle(kept: seq<Xml>, format: Format)
    requires forall x | x in kept :: x.tag.RPr?
    ensures var s := RunStyle(kept);
      RunStyle(Formatted(kept, format)) ==
        Style(Chosen(format.bold, s.bold), Chosen(format.italic, s.italic), Chosen(format.underline, s.underline))
    ensures forall x | x in Formatted(kept, format) :: x.tag.RPr?
  {
    hide On, Under, Chooses;
    FormattedOn(kept, format, B);
    FormattedOn(kept, format, I);
    FormattedOn(kept, format, U);
  }

  lemma {:induction false} KeptText(kept: seq<Xml>)
    requires forall x | x in kept :: x.tag.RPr?
    ensures RunText(kept) == []
  {
    if kept != [] {
      KeptText(kept[..|kept| - 1]);
    }
  }

  /** A run with the right characters and properties gives its text node back. */
  lemma RunRenders(part: string, n: Node, run: Xml, kept: seq<Xml>, chars: seq<Xml>)
    requires n.Text? && n.text != [] && run.tag.R? && run.children == kept + chars
    requires (forall x | x in kept :: x.tag.RPr?) && Characters(chars) && RunText(chars) == n.text
    requires RunStyle(kept) == StyleOf(n)
    ensures Renders(part, n, run)
  {
    KeptText(kept);
    RunTextConcat(kept, chars);
    UnderConcat(kept, chars, RPr, B);
    UnderConcat(kept, chars, RPr, I);
    UnderConcat(kept, chars, RPr, U);
    hide RunText, Under, On;
    assert PlainRun(run.children);
    assert RunText(run.children) == n.text && RunStyle(run.children) == StyleOf(n);
    forall p: nat ensures AlikeAll([n], InlineOf(part, run, p)) {
      hide RunStyle;
      assert InlineOf(part, run, p) == [Text(n.text, Some(Source(At(part, p), RunStyle(run.children))), None)];
    }
  }
}
