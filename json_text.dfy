/** JSON text as the border scanner sees it: characters outside strings,
    strings made of literal characters and backslash escapes, and objects
    that nest. Every JSON object text is the rendering of some well-formed
    `Obj` (arrays, numbers, literals, `:` and `,` are plain characters; an
    escape such as `\u00e9` is `Esc('u')` followed by four literal
    characters). The reversed rendering is what a backward scan reads. */
module JsonText {
  import opened Strings

  /** One character of a string's content: literal, or escaped by a backslash. */
  datatype Unit = Lit(c: char) | Esc(c: char)

  /** A piece of JSON text. */
  datatype Item = Plain(c: char) | Str(units: seq<Unit>) | Obj(items: seq<Item>)

  predicate WfUnit(u: Unit) {
    match u
    case Lit(c) => c != Quote && c != Backslash && c != NewLine
    case Esc(c) => c != NewLine
  }

  predicate WfUnits(us: seq<Unit>) {
    forall i :: 0 <= i < |us| ==> WfUnit(us[i])
  }

  /** Well formed: no newline anywhere (JSON text is one line here), no brace,
      quote or backslash outside strings, no bare quote or backslash inside. */
  predicate WfItem(it: Item)
    decreases it
  {
    match it
    case Plain(c) => c != '{' && c != '}' && c != Quote && c != Backslash && c != NewLine
    case Str(us) => WfUnits(us)
    case Obj(items) => WfItems(items)
  }

  predicate WfItems(items: seq<Item>)
    decreases items
  {
    forall i :: 0 <= i < |items| ==> WfItem(items[i])
  }

  /** The strings of a piece of text hold no escapes. */
  predicate EscapeFreeItem(it: Item)
    decreases it
  {
    match it
    case Plain(_) => true
    case Str(us) => forall i :: 0 <= i < |us| ==> us[i].Lit?
    case Obj(items) => EscapeFreeItems(items)
  }

  predicate EscapeFreeItems(items: seq<Item>)
    decreases items
  {
    forall i :: 0 <= i < |items| ==> EscapeFreeItem(items[i])
  }

  function RenderUnit(u: Unit): string {
    match u
    case Lit(c) => [c]
    case Esc(c) => [Backslash, c]
  }

  function RenderUnits(us: seq<Unit>): string {
    if us == [] then "" else RenderUnit(us[0]) + RenderUnits(us[1..])
  }

  function RenderItem(it: Item): string
    decreases it
  {
    match it
    case Plain(c) => [c]
    case Str(us) => [Quote] + RenderUnits(us) + [Quote]
    case Obj(items) => "{" + RenderItems(items) + "}"
  }

  function RenderItems(items: seq<Item>): string
    decreases items
  {
    if items == [] then "" else RenderItem(items[0]) + RenderItems(items[1..])
  }

  /** The reversed rendering, built from the last unit backwards. */
  function RevRenderUnit(u: Unit): string {
    match u
    case Lit(c) => [c]
    case Esc(c) => [c, Backslash]
  }

  function RevRenderUnits(us: seq<Unit>): string {
    if us == [] then "" else RevRenderUnit(us[|us| - 1]) + RevRenderUnits(us[..|us| - 1])
  }

  function RevRenderItem(it: Item): string
    decreases it
  {
    match it
    case Plain(c) => [c]
    case Str(us) => [Quote] + RevRenderUnits(us) + [Quote]
    case Obj(items) => "}" + RevRenderItems(items) + "{"
  }

  function RevRenderItems(items: seq<Item>): string
    decreases items
  {
    if items == [] then "" else RevRenderItem(items[|items| - 1]) + RevRenderItems(items[..|items| - 1])
  }

  /** Rendering a concatenation of units renders each part in turn. */
  lemma {:induction false} RenderUnitsConcat(a: seq<Unit>, b: seq<Unit>)
    ensures RenderUnits(a + b) == RenderUnits(a) + RenderUnits(b)
    decreases |a|
  {
    if a != [] {
      assert (a + b)[1..] == a[1..] + b;
      RenderUnitsConcat(a[1..], b);
    } else {
      assert a + b == b;
    }
  }

  lemma {:induction false} RenderItemsConcat(a: seq<Item>, b: seq<Item>)
    ensures RenderItems(a + b) == RenderItems(a) + RenderItems(b)
    decreases |a|
  {
    if a != [] {
      assert (a + b)[1..] == a[1..] + b;
      RenderItemsConcat(a[1..], b);
    } else {
      assert a + b == b;
    }
  }

  /** The reversed rendering of units is the rendering, reversed. */
  lemma {:induction false} ReverseRenderUnits(us: seq<Unit>)
    ensures Reverse(RenderUnits(us)) == RevRenderUnits(us)
    decreases |us|
  {
    if us != [] {
      var front, last := us[..|us| - 1], us[|us| - 1];
      assert us == front + [last];
      RenderUnitsConcat(front, [last]);
      assert RenderUnits([last]) == RenderUnit(last);
      ReverseConcat(RenderUnits(front), RenderUnit(last));
      ReverseRenderUnits(front);
      assert Reverse(RenderUnit(last)) == RevRenderUnit(last);
    }
  }

  /** The reversed rendering of a piece of JSON text is its rendering,
      reversed: what a backward scan reads. */
  lemma {:induction false} ReverseRenderItem(it: Item)
    ensures Reverse(RenderItem(it)) == RevRenderItem(it)
    decreases it, 1
  {
    match it
    case Plain(c) =>
      assert Reverse([c]) == [c];
    case Str(us) =>
      ReverseConcat([Quote] + RenderUnits(us), [Quote]);
      ReverseConcat([Quote], RenderUnits(us));
      ReverseRenderUnits(us);
      assert Reverse([Quote]) == [Quote];
    case Obj(items) =>
      ReverseConcat("{" + RenderItems(items), "}");
      ReverseConcat("{", RenderItems(items));
      ReverseRenderItems(items);
      assert Reverse("{") == "{" && Reverse("}") == "}";
  }

  lemma {:induction false} ReverseRenderItems(items: seq<Item>)
    ensures Reverse(RenderItems(items)) == RevRenderItems(items)
    decreases items, 0
  {
    if items != [] {
      var front, last := items[..|items| - 1], items[|items| - 1];
      assert items == front + [last];
      RenderItemsConcat(front, [last]);
      assert RenderItems([last]) == RenderItem(last);
      ReverseConcat(RenderItems(front), RenderItem(last));
      ReverseRenderItems(front);
      ReverseRenderItem(last);
    }
  }

  /** A well-formed piece of text never starts with a backslash, read
      either way. */
  lemma RevRenderItemStart(it: Item)
    requires WfItem(it)
    ensures |RevRenderItem(it)| > 0 && RevRenderItem(it)[0] != Backslash
  {
  }

  /** The last character of the reversed rendering of a string's units is
      the first unit's character, when that unit is literal. */
  lemma RevRenderUnitsEnd(us: seq<Unit>)
    requires us != [] && us[0].Lit?
    ensures |RevRenderUnits(us)| > 0 && RevRenderUnits(us)[|RevRenderUnits(us)| - 1] == us[0].c
  {
    assert RenderUnits(us) == RenderUnit(us[0]) + RenderUnits(us[1..]);
    ReverseRenderUnits(us);
  }
}
