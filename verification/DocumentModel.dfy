/** The editor's document tree and the positions its nodes occupy. */
module DocumentModel {
  import opened Common
  import opened Utf16

  /** Identities, by the way they are spelled: a source element by its place in a part, a control by its native number,
      a paragraph split off another one, a control made in the editor, and a control a copied review still lists
      although the document has lost it (a digest of the copy's version and the former identity). */
  datatype Id =
    | At(part: string, position: nat)
    | Control(part: string, native: string)
    | Split(source: Id, suffix: string)
    | Made(hex: string)
    | Gone(version: nat, source: Id)

  /** A control without a tag is keyed by its own identity. */
  datatype Key = Tagged(value: string) | Own

  datatype Alignment = Left | Center | Right | Both

  datatype Style = Style(bold: bool, italic: bool, underline: bool)

  /** The mark of an imported run. */
  datatype Source = Source(id: Id, style: Style)

  /** The mark of formatting chosen in the editor; an absent component keeps the source's. */
  datatype Format = Format(bold: Option<bool>, italic: Option<bool>, underline: Option<bool>)

  datatype Node =
    | Doc(content: seq<Node>)
    | Section(part: string, content: seq<Node>)
    | Paragraph(id: Id, align: Alignment, numbered: bool, content: seq<Node>)
    | Table(id: Id, content: seq<Node>)
    | TableRow(id: Id, content: seq<Node>)
    | TableCell(id: Id, colspan: nat, content: seq<Node>)
    | Field(id: Id, key: Key, alias: string, content: seq<Node>)
    | Text(text: string, source: Option<Source>, format: Option<Format>)
    | LockedBlock(id: Id, caption: string)
    | LockedInline(id: Id, caption: string, shapes: map<nat, string>)
    | Checkbox(id: Id, checked: bool)

  predicate IsLeaf(n: Node) {
    n.LockedBlock? || n.LockedInline? || n.Checkbox?
  }

  predicate IsContainer(n: Node) {
    !n.Text? && !IsLeaf(n)
  }

  function Content(n: Node): seq<Node> {
    if IsContainer(n) then n.content else []
  }

  /** Which nodes a container may hold. */
  predicate MayHold(n: Node, child: Node) {
    match n
    case Doc(_) => child.Section?
    case Section(_, _) => child.Paragraph? || child.Table? || child.LockedBlock?
    case Paragraph(_, _, _, _) => child.Text? || child.Field? || child.LockedInline? || child.Checkbox?
    case Table(_, _) => child.TableRow?
    case TableRow(_, _) => child.TableCell?
    case TableCell(_, _, _) => child.Paragraph? || child.Table? || child.LockedBlock?
    case Field(_, _, _, _) => child.Text?
    case _ => false
  }

  /** The editor's schema: every node holds only what it may, and no text node is empty. */
  predicate WellFormed(n: Node) {
    && (n.Text? ==> n.text != [])
    && forall i | 0 <= i < |Content(n)| :: MayHold(n, Content(n)[i]) && WellFormed(Content(n)[i])
  }

  /** How many positions a node takes: its UTF-16 units, one for an atom, and two tokens around any other content. */
  function Size(n: Node): nat
    decreases n, 1
  {
    if n.Text? then |Encode(n.text)|
    else if IsLeaf(n) then 1
    else SizeAll(n.content) + if n.Doc? then 0 else 2
  }

  function SizeAll(ns: seq<Node>): nat
    decreases ns, 0
  {
    if ns == [] then 0 else Size(ns[0]) + SizeAll(ns[1..])
  }

  /** The number of nodes of a tree. */
  function Count(n: Node): nat
    decreases n, 1
  {
    1 + if IsContainer(n) then CountAll(n.content) else 0
  }

  function CountAll(ns: seq<Node>): nat
    decreases ns, 0
  {
    if ns == [] then 0 else Count(ns[0]) + CountAll(ns[1..])
  }

  /** Where the content of a node starts. */
  function Inside(n: Node, position: nat): nat {
    position + if n.Doc? then 0 else 1
  }

  lemma {:induction false} SizeAllConcat(a: seq<Node>, b: seq<Node>)
    ensures SizeAll(a + b) == SizeAll(a) + SizeAll(b)
  {
    if a == [] {
      assert a + b == b;
    } else {
      assert (a + b)[1..] == a[1..] + b;
      SizeAllConcat(a[1..], b);
    }
  }

  lemma SizePositive(n: Node)
    requires WellFormed(n) && !n.Doc?
    ensures Size(n) > 0
  {
    if n.Text? {
      EncodeEmpty(n.text);
    }
  }
}
