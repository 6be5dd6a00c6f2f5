/** The graphics half of design-patterns/structural/composite.py: a graphic
    object with an optional colour, a name and children, and its rendering
    as a preorder listing marked with one star per level. The objects'
    own methods never change them, so a graphic object is a value here. */
module Graphics {
  import opened Optional
  import opened PyStr
  import opened SeqFacts

  /** Which class the object was made from. */
  datatype Kind = Group | Circle | Square

  /** `nameField` is the `_name` attribute; `color` is `None` when the
      constructor got no colour. */
  datatype GraphicObject = GraphicObject(kind: Kind, color: Option<string>, nameField: string, children: seq<GraphicObject>)

  /** `GraphicObject(color)`, `Circle(color)` or `Square(color)`: no children
      and `_name` set to 'Group'. */
  function Make(kind: Kind, color: Option<string>): (g: GraphicObject)
    ensures g.children == [] && g.color == color && g.kind == kind
    ensures Name(g) == if kind == Group then "Group" else "Circle"
  {
    GraphicObject(kind, color, "Group", [])
  }

  /** The `name` property: the `_name` attribute for a plain object; both
      subclasses override it with 'Circle'. */
  function Name(g: GraphicObject): (r: string)
    ensures g.kind != Group ==> r == "Circle"
    ensures g.kind == Group ==> r == g.nameField
  {
    if g.kind == Group then g.nameField else "Circle"
  }

  /** `if self.color`: a colour counts when present and not empty. */
  predicate HasColor(g: GraphicObject) {
    g.color.Some? && g.color.value != ""
  }

  /** The items `_print(items, depth)` appends for the object itself. */
  function OwnItems(g: GraphicObject, depth: nat): seq<string> {
    [Repeat('*', depth)] + (if HasColor(g) then [g.color.value] else []) + [Name(g) + "\n"]
  }

  /** Every item `_print(items, depth)` appends, in order. */
  function Items(g: GraphicObject, depth: nat): seq<string>
    decreases g, 1
  {
    OwnItems(g, depth) + ChildItems(g.children, depth + 1)
  }

  function ChildItems(cs: seq<GraphicObject>, depth: nat): seq<string>
    decreases cs, 0
  {
    if cs == [] then [] else Items(cs[0], depth) + ChildItems(cs[1..], depth)
  }

  /** `_print`: appends this object's items and then, in order, each child's
      at the next depth. */
  method Print(g: GraphicObject, items: seq<string>, depth: nat) returns (out: seq<string>)
    ensures out == items + Items(g, depth)
    decreases g
  {
    out := PrintOwn(g, items, depth);
    ghost var own := out;
    var i := 0;
    while i < |g.children|
      invariant 0 <= i <= |g.children|
      invariant out == own + ChildItems(g.children[..i], depth + 1)
    {
      ghost var prev := ChildItems(g.children[..i], depth + 1);
      ChildItemsSnoc(g.children, i, depth + 1);
      out := Print(g.children[i], out, depth + 1);
      AppendAssoc(own, prev, Items(g.children[i], depth + 1));
      i := i + 1;
    }
    assert g.children[..i] == g.children;
    AppendAssoc(items, OwnItems(g, depth), ChildItems(g.children, depth + 1));
  }

  /** The first three appends of `_print`: stars, colour, name. */
  method PrintOwn(g: GraphicObject, items: seq<string>, depth: nat) returns (out: seq<string>)
    ensures out == items + OwnItems(g, depth)
  {
    out := items + [Repeat('*', depth)];
    if HasColor(g) {
      out := out + [g.color.value];
    }
    out := out + [Name(g) + "\n"];
  }

  lemma ChildItemsSnoc(cs: seq<GraphicObject>, i: nat, depth: nat)
    requires i < |cs|
    ensures ChildItems(cs[..i + 1], depth) == ChildItems(cs[..i], depth) + Items(cs[i], depth)
  {
    ChildItemsAppend(cs[..i], [cs[i]], depth);
    assert cs[..i + 1] == cs[..i] + [cs[i]];
    assert [cs[i]][1..] == [];
  }

  lemma {:induction false} ChildItemsAppend(a: seq<GraphicObject>, b: seq<GraphicObject>, depth: nat)
    ensures ChildItems(a + b, depth) == ChildItems(a, depth) + ChildItems(b, depth)
    decreases |a|
  {
    if a == [] {
      assert a + b == b;
    } else {
      var ab := a + b;
      assert ab[0] == a[0] && ab[1..] == a[1..] + b;
      ChildItemsAppend(a[1..], b, depth);
      assert ChildItems(ab, depth) == Items(a[0], depth) + ChildItems(a[1..] + b, depth);
      AppendAssoc(Items(a[0], depth), ChildItems(a[1..], depth), ChildItems(b, depth));
    }
  }

  /** `__str__`: the items of the whole tree from depth 0, concatenated. */
  method ToString(g: GraphicObject) returns (s: string)
    ensures s == Concat(Items(g, 0))
  {
    var items := Print(g, [], 0);
    assert items == Items(g, 0);
    s := Concat(items);
  }

  /** The number of objects in a tree, itself included. */
  function Count(g: GraphicObject): nat
    decreases g, 1
  {
    1 + ChildCount(g.children)
  }

  function ChildCount(cs: seq<GraphicObject>): nat
    decreases cs, 0
  {
    if cs == [] then 0 else Count(cs[0]) + ChildCount(cs[1..])
  }

  /** No name or colour in the tree holds a newline. */
  predicate NoNewlines(g: GraphicObject)
    decreases g, 1
  {
    '\n' !in Name(g) && (HasColor(g) ==> '\n' !in g.color.value) && AllNoNewlines(g.children)
  }

  predicate AllNoNewlines(cs: seq<GraphicObject>)
    decreases cs, 0
  {
    cs == [] || (NoNewlines(cs[0]) && AllNoNewlines(cs[1..]))
  }

  /** Each object contributes one line: when no name or colour holds a
      newline, the rendering has exactly one newline per object. */
  lemma {:induction false} OneLinePerObject(g: GraphicObject, depth: nat)
    requires NoNewlines(g)
    ensures CountChar(Concat(Items(g, depth)), '\n') == Count(g)
    decreases g, 1
  {
    var stars := [Repeat('*', depth)];
    var col: seq<string> := if HasColor(g) then [g.color.value] else [];
    var own := [Name(g) + "\n"];
    var rest := ChildItems(g.children, depth + 1);
    assert Items(g, depth) == stars + col + own + rest;
    ConcatAppend(stars + col + own, rest);
    ConcatAppend(stars + col, own);
    ConcatAppend(stars, col);
    assert Concat(stars) == Repeat('*', depth) by { assert stars[1..] == []; }
    assert Concat(own) == Name(g) + "\n" by { assert own[1..] == []; }
    CountCharAbsent(Repeat('*', depth), '\n');
    if HasColor(g) {
      assert Concat(col) == g.color.value by { assert col[1..] == []; }
      CountCharAbsent(g.color.value, '\n');
    }
    CountCharAbsent(Name(g), '\n');
    CountCharAppend(Name(g), "\n", '\n');
    CountCharAppend(Concat(stars), Concat(col), '\n');
    CountCharAppend(Concat(stars) + Concat(col), Concat(own), '\n');
    CountCharAppend(Concat(stars) + Concat(col) + Concat(own), Concat(rest), '\n');
    ChildrenOneLine(g.children, depth + 1);
  }

  lemma {:induction false} ChildrenOneLine(cs: seq<GraphicObject>, depth: nat)
    requires AllNoNewlines(cs)
    ensures CountChar(Concat(ChildItems(cs, depth)), '\n') == ChildCount(cs)
    decreases cs, 0
  {
    if cs != [] {
      OneLinePerObject(cs[0], depth);
      ChildrenOneLine(cs[1..], depth);
      ConcatAppend(Items(cs[0], depth), ChildItems(cs[1..], depth));
      CountCharAppend(Concat(Items(cs[0], depth)), Concat(ChildItems(cs[1..], depth)), '\n');
    }
  }

  /** Lines 164-175: the drawing of two squares and a group, rendered. Both
      subclasses answer 'Circle' for their name, and the top object prints no
      stars and no colour. */
  method DrawingDemo() returns (s: string)
    ensures s == "My Drawing\n" + "*RedCircle\n" + "*BlueCircle\n" + "*Group\n"
                 + "**BlueCircle\n" + "**RedCircle\n"
  {
    var drawing := Make(Group, None).(nameField := "My Drawing");
    drawing := drawing.(children := drawing.children + [Make(Square, Some("Red"))]);
    drawing := drawing.(children := drawing.children + [Make(Square, Some("Blue"))]);
    var group := Make(Group, None);
    group := group.(children := group.children + [Make(Circle, Some("Blue"))]);
    group := group.(children := group.children + [Make(Square, Some("Red"))]);
    drawing := drawing.(children := drawing.children + [group]);
    assert group.children == [BlueCircle, RedSquare];
    assert drawing.children == [RedSquare, BlueSquare, InnerGroup];
    assert drawing == Drawing;
    DrawingItems();
    DrawingText();
    s := ToString(drawing);
  }

  const RedSquare := GraphicObject(Square, Some("Red"), "Group", [])
  const BlueSquare := GraphicObject(Square, Some("Blue"), "Group", [])
  const BlueCircle := GraphicObject(Circle, Some("Blue"), "Group", [])
  const InnerGroup := GraphicObject(Group, None, "Group", [BlueCircle, RedSquare])
  const Drawing := GraphicObject(Group, None, "My Drawing", [RedSquare, BlueSquare, InnerGroup])

  /** The items of the drawing, one line of output per row. */
  const DrawingLines: seq<seq<string>> := [
    ["", "My Drawing\n"],
    ["*", "Red", "Circle\n"],
    ["*", "Blue", "Circle\n"],
    ["*", "Group\n"],
    ["**", "Blue", "Circle\n"],
    ["**", "Red", "Circle\n"]]

  lemma LeafItems(g: GraphicObject, depth: nat)
    requires g.children == [] && HasColor(g) && g.kind != Group
    ensures Items(g, depth) == [Repeat('*', depth), g.color.value, "Circle\n"]
  {
    assert Name(g) + "\n" == "Circle\n";
    assert ChildItems(g.children, depth + 1) == [];
    assert OwnItems(g, depth) == [Repeat('*', depth), g.color.value, "Circle\n"];
  }

  lemma ChildItemsOne(a: GraphicObject, depth: nat)
    ensures ChildItems([a], depth) == Items(a, depth)
  {
    assert [a][1..] == [];
  }

  lemma ChildItemsTwo(a: GraphicObject, b: GraphicObject, depth: nat)
    ensures ChildItems([a, b], depth) == Items(a, depth) + Items(b, depth)
  {
    assert [a, b][1..] == [b];
    ChildItemsOne(b, depth);
  }

  lemma ChildItemsThree(a: GraphicObject, b: GraphicObject, c: GraphicObject, depth: nat)
    ensures ChildItems([a, b, c], depth) == Items(a, depth) + Items(b, depth) + Items(c, depth)
  {
    assert [a, b, c][1..] == [b, c];
    ChildItemsTwo(b, c, depth);
    AppendAssoc(Items(a, depth), Items(b, depth), Items(c, depth));
  }

  lemma Stars()
    ensures Repeat('*', 0) == "" && Repeat('*', 1) == "*" && Repeat('*', 2) == "**"
  {
    assert Repeat('*', 1) == ['*'] + Repeat('*', 0);
    assert Repeat('*', 2) == ['*'] + Repeat('*', 1);
  }

  lemma DrawingItems()
    ensures Items(Drawing, 0) == DrawingLines[0] + DrawingLines[1] + DrawingLines[2]
                                 + DrawingLines[3] + DrawingLines[4] + DrawingLines[5]
  {
    Stars();
    LeafItems(RedSquare, 1);
    LeafItems(BlueSquare, 1);
    LeafItems(BlueCircle, 2);
    LeafItems(RedSquare, 2);
    ChildItemsTwo(BlueCircle, RedSquare, 2);
    assert Name(InnerGroup) == "Group" && !HasColor(InnerGroup);
    assert Name(InnerGroup) + "\n" == "Group\n";
    assert OwnItems(InnerGroup, 1) == DrawingLines[3];
    assert Items(InnerGroup, 1) == DrawingLines[3] + (DrawingLines[4] + DrawingLines[5]);
    AppendAssoc(DrawingLines[3], DrawingLines[4], DrawingLines[5]);
    ChildItemsThree(RedSquare, BlueSquare, InnerGroup, 1);
    assert Name(Drawing) + "\n" == "My Drawing\n";
    assert OwnItems(Drawing, 0) == DrawingLines[0];
  }

  lemma DrawingText()
    ensures Concat(DrawingLines[0] + DrawingLines[1] + DrawingLines[2]
                   + DrawingLines[3] + DrawingLines[4] + DrawingLines[5])
            == "My Drawing\n" + "*RedCircle\n" + "*BlueCircle\n" + "*Group\n"
               + "**BlueCircle\n" + "**RedCircle\n"
  {
    var l := DrawingLines;
    LineTexts();
    ConcatSix(l[0], l[1], l[2], l[3], l[4], l[5]);
  }

  lemma LineTexts()
    ensures Concat(DrawingLines[0]) == "My Drawing\n" && Concat(DrawingLines[1]) == "*RedCircle\n"
    ensures Concat(DrawingLines[2]) == "*BlueCircle\n" && Concat(DrawingLines[3]) == "*Group\n"
    ensures Concat(DrawingLines[4]) == "**BlueCircle\n" && Concat(DrawingLines[5]) == "**RedCircle\n"
  {
    ConcatTwo("", "My Drawing\n");
    ConcatThree("*", "Red", "Circle\n");
    ConcatThree("*", "Blue", "Circle\n");
    ConcatTwo("*", "Group\n");
    ConcatThree("**", "Blue", "Circle\n");
    ConcatThree("**", "Red", "Circle\n");
  }

  lemma ConcatSix(a: seq<string>, b: seq<string>, c: seq<string>, d: seq<string>, e: seq<string>, f: seq<string>)
    ensures Concat(a + b + c + d + e + f) == Concat(a) + Concat(b) + Concat(c) + Concat(d) + Concat(e) + Concat(f)
  {
    ConcatAppend(a, b);
    ConcatAppend(a + b, c);
    ConcatAppend(a + b + c, d);
    ConcatAppend(a + b + c + d, e);
    ConcatAppend(a + b + c + d + e, f);
  }

  lemma ConcatTwo(a: string, b: string)
    ensures Concat([a, b]) == a + b
  {
    assert [a, b][1..] == [b] && [b][1..] == [];
    assert Concat([b]) == b + "";
    assert b + "" == b;
  }

  lemma ConcatThree(a: string, b: string, c: string)
    ensures Concat([a, b, c]) == a + b + c
  {
    assert [a, b, c][1..] == [b, c];
    ConcatTwo(b, c);
  }

}
