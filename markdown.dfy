/** The Markdown printer of src/cical_print_markdown.c. It changes no
    state: every printer appends to the output what it prints and calls
    the printers of what it holds, so each one is modelled as the function
    that gives the text it prints. */
module CicalMarkdown {
  import opened Util
  import opened Models

  /** The heading marks: a component heading prints at most these six. */
  const Hash := "######"

  /** markdown_print_list: nothing for an empty list, otherwise the text
      of each element in list order. */
  function MarkdownList<T>(xs: seq<T>, fn: T --> string): (r: string)
    requires forall x :: x in xs ==> fn.requires(x)
    ensures xs == [] ==> r == ""
    decreases |xs|
  {
    if xs == [] then "" else MarkdownList(xs[..|xs| - 1], fn) + fn(xs[|xs| - 1])
  }

  /** markdown_print_indented_char: one value of a parameter, without a
      newline. */
  function IndentedValue(v: string): (r: string)
    ensures |r| == |v| + 6 && r[6..] == v
    ensures forall i :: 0 <= i < 6 ==> r[i] != '\n'
  {
    "    - " + v
  }

  /** markdown_print_params: the name of the parameter, its values one
      after the other and a newline. */
  function ParamText(p: Param): (r: string)
    ensures StartsWith(r, "  - *" + p.name + "*\n")
    ensures r[|r| - 1] == '\n'
  {
    "  - *" + p.name + "*\n" + MarkdownList(p.values, IndentedValue) + "\n"
  }

  /** Whether a property prints its value: the value is present and not
      empty. */
  predicate ShowsValue(p: Property) {
    p.value.Some? && p.value.value != ""
  }

  /** The first line of a property: its name, then the value if it is
      shown. */
  function PropertyLine(p: Property): (r: string)
    ensures StartsWith(r, "- *" + p.name + "*")
    ensures r[|r| - 1] == '\n'
  {
    if ShowsValue(p) then "- *" + p.name + "*: " + p.value.value + "\n" else "- *" + p.name + "*\n"
  }

  /** markdown_print_property: the line, the parameter list and a blank
      line. */
  function PropertyText(p: Property): (r: string)
    ensures StartsWith(r, PropertyLine(p))
    ensures r[|r| - 1] == '\n'
  {
    PropertyLine(p) + MarkdownList(p.params, ParamText) + "\n"
  }

  /** The heading of a component: the precision indent + 1 of "%.*s" cuts
      the six marks to at most that many, then a space, the name and a
      blank line. */
  function Heading(name: string, indent: nat): (r: string)
    ensures r == Repeat('#', Min(indent + 1, 6)) + " " + name + "\n\n"
  {
    var marks := Hash[..Min(indent + 1, 6)];
    assert marks == Repeat('#', Min(indent + 1, 6));
    marks + " " + name + "\n\n"
  }

  /** markdown_print_component: the heading, the properties, the children
      one level deeper and a newline. */
  function ComponentText(c: Component, indent: nat): string
    decreases c, 1
  {
    Heading(c.name, indent) + MarkdownList(c.props, PropertyText) + ChildrenText(c, indent + 1, |c.comps|) + "\n"
  }

  /** The list walk over the first n children of c, each printed by
      ComponentText at the given indent. */
  function ChildrenText(c: Component, indent: nat, n: nat): string
    requires n <= |c.comps|
    decreases c, 0, n
  {
    if n == 0 then "" else ChildrenText(c, indent, n - 1) + ComponentText(c.comps[n - 1], indent)
  }

  /** markdown_print: the children of the top container at indent 0; the
      container itself is not printed. */
  function MarkdownPrint(c: Component): (r: string)
    ensures c.comps == [] ==> r == ""
  {
    MarkdownList(c.comps, (d: Component) => ComponentText(d, 0))
  }

  // ---------------------------------------------------------------------
  // Lists

  /** Printing two lists one after the other prints the list of both. */
  lemma {:induction false} ListAppend<T>(xs: seq<T>, ys: seq<T>, fn: T --> string)
    requires forall x :: x in xs + ys ==> fn.requires(x)
    ensures MarkdownList(xs + ys, fn) == MarkdownList(xs, fn) + MarkdownList(ys, fn)
    decreases |ys|
  {
    if ys == [] {
      assert xs + ys == xs;
    } else {
      var l := |ys| - 1;
      assert (xs + ys)[..|xs + ys| - 1] == xs + ys[..l];
      ListAppend(xs, ys[..l], fn);
      var a, b, x := MarkdownList(xs, fn), MarkdownList(ys[..l], fn), fn(ys[l]);
      assert (a + b) + x == a + (b + x);
    }
  }

  /** A one-element list prints that element. */
  lemma ListSingle<T>(x: T, fn: T --> string)
    requires fn.requires(x)
    ensures MarkdownList([x], fn) == fn(x)
  {
    assert [x][..0] == [];
  }

  /** The list prints the elements in order: its text is the first
      element's text followed by the rest's. */
  lemma ListCons<T>(xs: seq<T>, fn: T --> string)
    requires xs != [] && forall x :: x in xs ==> fn.requires(x)
    ensures MarkdownList(xs, fn) == fn(xs[0]) + MarkdownList(xs[1..], fn)
  {
    assert xs == [xs[0]] + xs[1..];
    ListAppend([xs[0]], xs[1..], fn);
    ListSingle(xs[0], fn);
  }

  /** The list's length is the sum of its elements' lengths. */
  function ListLength<T>(xs: seq<T>, fn: T --> string): nat
    requires forall x :: x in xs ==> fn.requires(x)
    decreases |xs|
  {
    if xs == [] then 0 else ListLength(xs[..|xs| - 1], fn) + |fn(xs[|xs| - 1])|
  }

  /** Nothing is added between or around the elements. */
  lemma {:induction false} ListLengthSum<T>(xs: seq<T>, fn: T --> string)
    requires forall x :: x in xs ==> fn.requires(x)
    ensures |MarkdownList(xs, fn)| == ListLength(xs, fn)
    decreases |xs|
  {
    if xs != [] {
      ListLengthSum(xs[..|xs| - 1], fn);
    }
  }

  // ---------------------------------------------------------------------
  // Headings

  /** The heading has Min(indent + 1, 6) marks and a space after them. */
  lemma HeadingLevel(name: string, indent: nat)
    ensures var h := Heading(name, indent); var k := Min(indent + 1, 6);
      k < |h| && h[k] == ' ' && forall i :: 0 <= i < k ==> h[i] == '#'
  {
  }

  /** From indent 5 on the headings stop growing. */
  lemma HeadingCapped(name: string, indent: nat)
    requires indent >= 5
    ensures Heading(name, indent) == Heading(name, 5)
  {
  }

  // ---------------------------------------------------------------------
  // Properties and parameters

  /** An empty value prints as no value at all. */
  lemma EmptyValueHidden(p: Property)
    requires p.value == Some("")
    ensures PropertyText(p) == PropertyText(p.(value := None))
  {
  }

  /** A shown value follows the name after ": " on the first line, and
      that line holds no other value. */
  lemma PropertyLineShape(p: Property)
    ensures StartsWith(PropertyLine(p), "- *" + p.name + "*")
    ensures ShowsValue(p) ==> PropertyLine(p)[|p.name| + 4..] == ": " + p.value.value + "\n"
    ensures !ShowsValue(p) ==> PropertyLine(p)[|p.name| + 4..] == "\n"
  {
    var head := "- *" + p.name + "*";
    assert |head| == |p.name| + 4;
    if ShowsValue(p) {
      var l := head + ": " + p.value.value + "\n";
      assert l == head + (": " + p.value.value + "\n");
      assert l[..|head|] == head;
    } else {
      var l := head + "\n";
      assert l[..|head|] == head;
    }
  }

  /** A string without c counts none. */
  lemma {:induction false} NoneCounted(s: string, c: char)
    requires forall i :: 0 <= i < |s| ==> s[i] != c
    ensures Count(s, c) == 0
    decreases |s|
  {
    if s != [] {
      NoneCounted(s[..|s| - 1], c);
    }
  }

  /** The number of newlines in the values of a parameter. */
  function ValuesNewlines(vs: seq<string>): nat
    decreases |vs|
  {
    if vs == [] then 0 else ValuesNewlines(vs[..|vs| - 1]) + Count(vs[|vs| - 1], '\n')
  }

  /** The values of a parameter share one line: a parameter prints two
      newlines besides the ones inside its name and its values. */
  lemma ParamNewlines(p: Param)
    ensures Count(ParamText(p), '\n') == 2 + Count(p.name, '\n') + ValuesNewlines(p.values)
  {
    var vs := MarkdownList(p.values, IndentedValue);
    ValuesCount(p.values);
    NoneCounted("  - *", '\n');
    CountAppend("  - *", p.name, '\n');
    CountAppend("  - *" + p.name, "*\n", '\n');
    CountAppend("  - *" + p.name + "*\n", vs, '\n');
    CountAppend("  - *" + p.name + "*\n" + vs, "\n", '\n');
  }

  /** The number of newlines in the printed values is the number in the
      values. */
  lemma {:induction false} ValuesCount(vs: seq<string>)
    ensures Count(MarkdownList(vs, IndentedValue), '\n') == ValuesNewlines(vs)
    decreases |vs|
  {
    if vs != [] {
      var l := vs[|vs| - 1];
      ValuesCount(vs[..|vs| - 1]);
      NoneCounted("    - ", '\n');
      CountAppend("    - ", l, '\n');
      CountAppend(MarkdownList(vs[..|vs| - 1], IndentedValue), IndentedValue(l), '\n');
    }
  }

  // ---------------------------------------------------------------------
  // Components

  /** The children are walked as markdown_print_list walks any list,
      with the component printer one level deeper. */
  lemma {:induction false} ChildrenList(c: Component, indent: nat, n: nat)
    requires n <= |c.comps|
    ensures ChildrenText(c, indent, n) == MarkdownList(c.comps[..n], (d: Component) => ComponentText(d, indent))
    decreases n
  {
    if n > 0 {
      ChildrenList(c, indent, n - 1);
      assert c.comps[..n][..n - 1] == c.comps[..n - 1];
    }
  }

  /** A component prints its heading, then its properties, then its
      children one level deeper, walked as any list, then a newline. */
  lemma ChildrenInOrder(c: Component, indent: nat)
    ensures ComponentText(c, indent) ==
      Heading(c.name, indent) + MarkdownList(c.props, PropertyText) +
      MarkdownList(c.comps, (d: Component) => ComponentText(d, indent + 1)) + "\n"
  {
    ChildrenList(c, indent + 1, |c.comps|);
    assert c.comps[..|c.comps|] == c.comps;
  }

  /** A text made of a head, two middle parts and a final newline starts
      with the head and ends with the newline. */
  lemma Framed(t: string, h: string, a: string, b: string)
    requires t == h + a + b + "\n"
    ensures StartsWith(t, h) && t != [] && t[|t| - 1] == '\n'
  {
    assert t == h + (a + b + "\n");
    assert t[..|h|] == h;
  }

  /** The text of a component starts with its heading and ends with a
      newline. */
  lemma ComponentFrame(c: Component, indent: nat)
    ensures StartsWith(ComponentText(c, indent), Heading(c.name, indent))
    ensures var t := ComponentText(c, indent); t != [] && t[|t| - 1] == '\n'
  {
    Framed(ComponentText(c, indent), Heading(c.name, indent), MarkdownList(c.props, PropertyText), ChildrenText(c, indent + 1, |c.comps|));
  }

  /** The name and the properties of the top container are not printed. */
  lemma TopNotPrinted(c: Component, name: string, props: seq<Property>)
    ensures MarkdownPrint(c) == MarkdownPrint(c.(name := name, props := props))
  {
  }

  /** The top container's children are printed at indent 0, each as its
      own top-level heading. */
  lemma TopLevelAtZero(c: Component)
    requires c.comps != []
    ensures MarkdownPrint(c) == ComponentText(c.comps[0], 0) + MarkdownPrint(c.(comps := c.comps[1..]))
  {
    ListCons(c.comps, (d: Component) => ComponentText(d, 0));
  }
}
