/** The JSON printer of src/cical_print_json.c. Standard output is an
    Output object whose text the printer appends to. Each printing routine
    is proved to append exactly the text that a reference function
    describes. The lemmas about those functions give the escaping length,
    a JSON string reader that reads escaped text back, a reader that gets
    a property back from its printed object, the separators between list
    items and the depths of the children. */
module CicalJson {
  import opened Util
  import opened Models

  /** Standard output: everything printed so far. */
  class Output {
    var text: string

    constructor ()
      ensures text == ""
    {
      text := "";
    }

    /** printf of a string. */
    method Put(s: string)
      modifies this
      ensures text == old(text) + s
    {
      text := text + s;
    }
  }

  // ---------------------------------------------------------------------
  // print_escaped_json

  /** A character as print_escaped_json prints it: '\' and '"' get a
      backslash in front, every other character is printed as it is. */
  function EscapeChar(c: char): (r: string)
    ensures c == '\\' || c == '"' ==> r == ['\\', c]
    ensures c != '\\' && c != '"' ==> r == [c]
  {
    if c == '\\' || c == '"' then ['\\', c] else [c]
  }

  /** The text print_escaped_json prints for s. */
  function Escape(s: string): string
    decreases |s|
  {
    if s == [] then [] else Escape(s[..|s| - 1]) + EscapeChar(s[|s| - 1])
  }

  /** print_escaped_json: the loop over the characters of p up to its NUL. */
  method PrintEscapedJson(o: Output, p: string)
    modifies o
    ensures o.text == old(o.text) + Escape(p)
  {
    var i := 0;
    while i < |p|
      invariant i <= |p|
      invariant o.text == old(o.text) + Escape(p[..i])
    {
      var c := p[i];
      if c == '\\' || c == '"' {
        o.Put("\\");
      }
      o.Put([c]);
      assert p[..i + 1][..i] == p[..i];
      i := i + 1;
    }
    assert p[..i] == p;
  }

  /** Escaping works character by character. */
  lemma {:induction false} EscapeAppend(a: string, b: string)
    ensures Escape(a + b) == Escape(a) + Escape(b)
    decreases |b|
  {
    if b == [] {
      assert a + b == a;
    } else {
      var b' := b[..|b| - 1];
      assert (a + b)[..|a + b| - 1] == a + b';
      EscapeAppend(a, b');
    }
  }

  /** The escaped text is one character longer than the input for every
      '\' and every '"' of the input. */
  lemma {:induction false} EscapeLength(s: string)
    ensures |Escape(s)| == |s| + Count(s, '\\') + Count(s, '"')
    decreases |s|
  {
    if s != [] {
      EscapeLength(s[..|s| - 1]);
    }
  }

  /** A string without '\' and '"' is printed unchanged: nothing else is
      escaped, control characters included. */
  lemma {:induction false} EscapePlain(s: string)
    requires forall i :: 0 <= i < |s| ==> s[i] != '\\' && s[i] != '"'
    ensures Escape(s) == s
    decreases |s|
  {
    if s != [] {
      EscapePlain(s[..|s| - 1]);
      assert s[..|s| - 1] + [s[|s| - 1]] == s;
    }
  }

  /** Escaping the first character, then the rest. */
  lemma EscapeCons(c: char, s: string)
    ensures Escape([c] + s) == EscapeChar(c) + Escape(s)
  {
    EscapeAppend([c], s);
    assert [c][..0] == [];
  }

  /** A JSON string reader that knows the two escapes print_escaped_json
      writes: it reads up to the first '"' without a backslash in front,
      dropping each backslash and keeping the character after it. The
      result is the text read and the rest, which starts at that '"'. */
  function ReadString(t: string): (r: Option<(string, string)>)
    ensures r.Some? ==> r.value.1 != [] && r.value.1[0] == '"' && |r.value.1| <= |t|
    decreases |t|
  {
    if t == [] then None
    else if t[0] == '"' then Some(([], t))
    else if t[0] == '\\' then
      if |t| < 2 then None
      else
        var r := ReadString(t[2..]);
        if r.None? then None else Some(([t[1]] + r.value.0, r.value.1))
    else
      var r := ReadString(t[1..]);
      if r.None? then None else Some(([t[0]] + r.value.0, r.value.1))
  }

  /** Reading one escaped character puts it in front of what is read
      after it. */
  lemma ReadChar(c: char, x: string)
    ensures var r := ReadString(x);
      ReadString(EscapeChar(c) + x) == if r.None? then None else Some(([c] + r.value.0, r.value.1))
  {
    var t := EscapeChar(c) + x;
    if c == '\\' || c == '"' {
      assert t[0] == '\\' && t[1] == c && t[2..] == x;
    } else {
      assert t[0] == c && t[1..] == x;
    }
  }

  /** Reading escaped text followed by a closing quote gives back the text
      that was escaped, and stops at that quote: an escaped string never
      ends the JSON string early. */
  lemma {:induction false} ReadEscaped(s: string, rest: string)
    requires rest != [] && rest[0] == '"'
    ensures ReadString(Escape(s) + rest) == Some((s, rest))
    decreases |s|
  {
    if s == [] {
      assert Escape(s) + rest == rest;
    } else {
      var c := s[0];
      var s' := s[1..];
      assert s == [c] + s';
      EscapeCons(c, s');
      ReadEscaped(s', rest);
      var x := Escape(s') + rest;
      Assoc(EscapeChar(c), Escape(s'), rest);
      ReadChar(c, x);
    }
  }

  /** Grouping of a concatenation. */
  lemma Assoc(a: string, b: string, c: string)
    ensures (a + b) + c == a + (b + c)
  {
  }

  // ---------------------------------------------------------------------
  // Indentation

  /** The indent string of component_print_json: snprintf with "%*c "
      prints a ' ' right-aligned in a field of 2 * depth characters (at
      least one) and one more space, cut to the 31 characters the 32-byte
      buffer holds. */
  function Indent(depth: nat): (r: string)
    ensures |r| == Min(Max(2 * depth, 1) + 1, 31)
    ensures forall i :: 0 <= i < |r| ==> r[i] == ' '
  {
    var full := Repeat(' ', Max(2 * depth, 1) - 1) + " " + " ";
    full[..Min(|full|, 31)]
  }

  // ---------------------------------------------------------------------
  // Lists with separators

  /** The items of a non-empty list with ",\n" between them. */
  function Sep(xs: seq<string>): (r: string)
    requires xs != []
    decreases |xs|
  {
    if |xs| == 1 then xs[0] else Sep(xs[..|xs| - 1]) + ",\n" + xs[|xs| - 1]
  }

  /** The items of a list with ",\n" between them and "\n" after the last;
      nothing for an empty list. */
  function Joined(xs: seq<string>): string {
    if xs == [] then "" else Sep(xs) + "\n"
  }

  /** The total length of the items. */
  function TotalLength(xs: seq<string>): nat
    decreases |xs|
  {
    if xs == [] then 0 else TotalLength(xs[..|xs| - 1]) + |xs[|xs| - 1]|
  }

  /** Sep starts with the first item, ends with the last, and adds exactly
      one two-character separator between each two neighbours: none in
      front and none after the last. */
  lemma {:induction false} SepShape(xs: seq<string>)
    requires xs != []
    ensures |Sep(xs)| == TotalLength(xs) + 2 * (|xs| - 1)
    ensures StartsWith(Sep(xs), xs[0])
    ensures var l := xs[|xs| - 1]; |l| <= |Sep(xs)| && Sep(xs)[|Sep(xs)| - |l|..] == l
    decreases |xs|
  {
    if |xs| > 1 {
      var p := xs[..|xs| - 1];
      SepShape(p);
      assert p[0] == xs[0];
      var l := xs[|xs| - 1];
      Assoc(Sep(p), ",\n", l);
      var s := Sep(p) + (",\n" + l);
      assert s[..|xs[0]|] == Sep(p)[..|xs[0]|];
      assert s[|s| - |l|..] == l;
    }
  }

  /** One more item of a list. */
  lemma SepNext(xs: seq<string>, n: nat)
    requires 0 < n < |xs|
    ensures Sep(xs[..n + 1]) == Sep(xs[..n]) + ",\n" + xs[n]
  {
    assert xs[..n + 1][..n] == xs[..n];
  }

  // ---------------------------------------------------------------------
  // Properties

  /** The text that introduces the "param" and the "value" member of a
      property object: it closes the string printed before it. */
  function ParamKey(indent: string): string { "\",\n" + indent + "      \"param\": \"" }
  function ValueKey(indent: string): string { "\",\n" + indent + "      \"value\": \"" }

  /** The two lines that open a property object, up to the string of its
      name. */
  function NameKey(indent: string): string {
    (indent + "      {\n") + (indent + "      \"name\": \"")
  }

  /** A member printed only when the field is not null. */
  function Field(key: string, v: Option<string>): string {
    if v.Some? then key + Escape(v.value) else ""
  }

  /** The object component_print_json prints for a property: its escaped
      name, then its escaped param and value, each only when not null. */
  function PropJson(p: Property, indent: string): string {
    NameKey(indent) + Escape(p.name) + Field(ParamKey(indent), p.param) + Field(ValueKey(indent), p.value) + "\"}"
  }

  /** Printing a field that may be null, as lines 43-50 do. */
  method PrintField(o: Output, key: string, v: Option<string>)
    modifies o
    ensures o.text == old(o.text) + Field(key, v)
  {
    if v.Some? {
      o.Put(key);
      PrintEscapedJson(o, v.value);
      Assoc(old(o.text), key, Escape(v.value));
    } else {
      assert old(o.text) + "" == old(o.text);
    }
  }

  /** The body of the property loop of component_print_json. */
  method PrintPropertyJson(o: Output, p: Property, indent: string)
    modifies o
    ensures o.text == old(o.text) + PropJson(p, indent)
  {
    ghost var base := o.text;
    o.Put(indent + "      {\n");
    o.Put(indent + "      \"name\": \"");
    Assoc(base, indent + "      {\n", indent + "      \"name\": \"");
    ghost var acc := NameKey(indent);
    PrintEscapedJson(o, p.name);
    Assoc(base, acc, Escape(p.name));
    acc := acc + Escape(p.name);
    PrintField(o, ParamKey(indent), p.param);
    Assoc(base, acc, Field(ParamKey(indent), p.param));
    acc := acc + Field(ParamKey(indent), p.param);
    PrintField(o, ValueKey(indent), p.value);
    Assoc(base, acc, Field(ValueKey(indent), p.value));
    acc := acc + Field(ValueKey(indent), p.value);
    o.Put("\"}");
    Assoc(base, acc, "\"}");
  }

  /** Reads a member with the given key, if the text starts with it: the
      value read, or None, and the rest. */
  function ReadField(t: string, key: string): Option<(Option<string>, string)> {
    if StartsWith(t, key) then
      var r := ReadString(t[|key|..]);
      if r.None? then None else Some((Some(r.value.0), r.value.1))
    else Some((None, t))
  }

  /** Reads a property back from the object PropJson prints. */
  function ReadProp(t: string, indent: string): Option<Property> {
    var open := NameKey(indent);
    if !StartsWith(t, open) then None
    else
      var n := ReadString(t[|open|..]);
      if n.None? then None
      else
        var f1 := ReadField(n.value.1, ParamKey(indent));
        if f1.None? then None
        else
          var f2 := ReadField(f1.value.1, ValueKey(indent));
          if f2.None? || f2.value.1 != "\"}" then None
          else Some(Property(n.value.0, f1.value.0, [], f2.value.0))
  }

  /** A member, printed or left out, reads back as the field it came from. */
  lemma FieldRead(key: string, v: Option<string>, rest: string)
    requires rest != [] && rest[0] == '"' && !StartsWith(rest, key)
    ensures ReadField(Field(key, v) + rest, key) == Some((v, rest))
  {
    if v.Some? {
      Assoc(key, Escape(v.value), rest);
      var t := key + (Escape(v.value) + rest);
      assert t[..|key|] == key && t[|key|..] == Escape(v.value) + rest;
      ReadEscaped(v.value, rest);
    } else {
      assert Field(key, v) + rest == rest;
    }
  }

  /** The "value" member and the end of the object do not start with the
      "param" key, and the end does not start with the "value" key. */
  lemma KeysDiffer(indent: string, v: Option<string>)
    ensures !StartsWith(Field(ValueKey(indent), v) + "\"}", ParamKey(indent))
    ensures !StartsWith("\"}", ValueKey(indent))
  {
    var t := Field(ValueKey(indent), v) + "\"}";
    var k := 3 + |indent| + 7;
    if v.Some? {
      assert t[k] == ValueKey(indent)[k] == 'v';
      assert ParamKey(indent)[k] == 'p';
    }
  }

  /** The first character of a member that is printed, or of what follows
      it when it is left out, is the quote that closes the string before. */
  lemma FieldQuote(key: string, v: Option<string>, rest: string)
    requires key != [] && key[0] == '"' && rest != [] && rest[0] == '"'
    ensures var t := Field(key, v) + rest; t != [] && t[0] == '"'
  {
    if v.Some? {
      assert (Field(key, v) + rest)[0] == key[0];
    } else {
      assert Field(key, v) + rest == rest;
    }
  }

  /** The object printed for a property reads back as that property,
      with "param" and "value" present exactly when they were not null;
      the properties src/cical.c builds have no parameter list. */
  lemma PropRoundTrip(p: Property, indent: string)
    ensures ReadProp(PropJson(p, indent), indent) == Some(p.(params := []))
  {
    var tail := "\"}";
    var f1 := Field(ParamKey(indent), p.param);
    var f2 := Field(ValueKey(indent), p.value);
    var r2 := f2 + tail;
    var r1 := f1 + r2;
    var e := Escape(p.name);
    var nk := NameKey(indent);
    assert PropJson(p, indent) == nk + (e + r1) by {
      Assoc(nk + e + f1, f2, tail);
      Assoc(nk + e, f1, r2);
      Assoc(nk, e, r1);
    }
    assert (nk + (e + r1))[..|nk|] == nk && (nk + (e + r1))[|nk|..] == e + r1;
    FieldQuote(ValueKey(indent), p.value, tail);
    FieldQuote(ParamKey(indent), p.param, r2);
    ReadEscaped(p.name, r1);
    KeysDiffer(indent, p.value);
    FieldRead(ParamKey(indent), p.param, r2);
    FieldRead(ValueKey(indent), p.value, tail);
  }

  // ---------------------------------------------------------------------
  // Components

  /** The objects of a property list, in list order. */
  function PropItems(ps: seq<Property>, indent: string): (r: seq<string>)
    ensures |r| == |ps| && forall k :: 0 <= k < |ps| ==> r[k] == PropJson(ps[k], indent)
  {
    seq(|ps|, k requires 0 <= k < |ps| => PropJson(ps[k], indent))
  }

  /** The first three lines of a component object: its name, printed as it
      is and not escaped, and the opening of its property list. */
  function JsonHead(name: string, indent: string): string {
    (indent + " {\n") + (indent + "  \"name\": \"" + name + "\",\n") + (indent + "  \"prop\": [\n")
  }

  /** The end of the property list and the opening of the children. */
  function JsonMiddle(indent: string): string {
    (indent + "   ],\n") + (indent + "  \"components\": [\n")
  }

  /** The end of the children and of the object. */
  function JsonTail(indent: string): string {
    (indent + "   ]\n") + (indent + " }\n")
  }

  /** The text component_print_json prints for c at the given depth. */
  function ComponentJson(c: Component, depth: nat): string
    decreases c, 1
  {
    var indent := Indent(depth);
    JsonHead(c.name, indent) + PropsText(c.props, indent) + JsonMiddle(indent) +
    KidsFrom(c, depth, 0) + JsonTail(indent)
  }

  /** The first n property objects as the loop prints them: ",\n" in front
      of each but the first. */
  function PropsLead(ps: seq<Property>, indent: string, n: nat): string
    requires n <= |ps|
  {
    if n == 0 then ""
    else PropsLead(ps, indent, n - 1) + (if n > 1 then ",\n" else "") + PropJson(ps[n - 1], indent)
  }

  /** The property list as printed: "\n" after the last object. */
  function PropsText(ps: seq<Property>, indent: string): string {
    PropsLead(ps, indent, |ps|) + (if |ps| > 0 then "\n" else "")
  }

  /** The children from the n-th on as the loop prints them: ",\n" in
      front of each but the first, the n-th (from 0) at depth + n + 1,
      and "\n" after the last. */
  function KidsFrom(c: Component, depth: nat, n: nat): string
    requires n <= |c.comps|
    decreases c, 0, |c.comps| - n
  {
    if n == |c.comps| then (if n > 0 then "\n" else "")
    else (if n > 0 then ",\n" else "") + ComponentJson(c.comps[n], depth + n + 1) + KidsFrom(c, depth, n + 1)
  }

  /** One more property object. */
  lemma PropsNext(ps: seq<Property>, indent: string, n: nat)
    requires n < |ps|
    ensures PropsLead(ps, indent, n + 1) == PropsLead(ps, indent, n) + (if n > 0 then ",\n" else "") + PropJson(ps[n], indent)
  {
  }

  /** The items of a list with ",\n" between them; nothing for an empty
      list. */
  function Listed(xs: seq<string>): string {
    if xs == [] then "" else Sep(xs)
  }

  /** One more item: the separator unless it is the first, then the item. */
  lemma ListedSnoc(xs: seq<string>, x: string)
    ensures Listed(xs + [x]) == Listed(xs) + (if xs != [] then ",\n" else "") + x
  {
    if xs != [] {
      assert (xs + [x])[..|xs|] == xs;
    } else {
      assert xs + [x] == [x];
    }
  }

  /** After the last item, a newline if there was one. */
  lemma ListedJoined(xs: seq<string>)
    ensures Listed(xs) + (if xs != [] then "\n" else "") == Joined(xs)
  {
    if xs == [] {
      assert Listed(xs) + "" == "";
    }
  }

  /** The separator the loops print before an item: ",\n" unless it is
      the first. */
  method PrintSeparator(o: Output, n: nat)
    modifies o
    ensures o.text == old(o.text) + (if n > 0 then ",\n" else "")
  {
    if n > 0 {
      o.Put(",\n");
    } else {
      assert o.text + "" == o.text;
    }
  }

  /** The newline the loops print after the last item, if there was one. */
  method PrintEnd(o: Output, n: nat)
    modifies o
    ensures o.text == old(o.text) + (if n > 0 then "\n" else "")
  {
    if n > 0 {
      o.Put("\n");
    } else {
      assert o.text + "" == o.text;
    }
  }

  /** The loop over the properties of component_print_json. */
  method PrintProps(o: Output, ps: seq<Property>, indent: string)
    modifies o
    ensures o.text == old(o.text) + PropsText(ps, indent)
  {
    var n := 0;
    while n < |ps|
      invariant n <= |ps|
      invariant o.text == old(o.text) + PropsLead(ps, indent, n)
    {
      ghost var done := PropsLead(ps, indent, n);
      ghost var sep := if n > 0 then ",\n" else "";
      PrintSeparator(o, n);
      Assoc(old(o.text), done, sep);
      PrintPropertyJson(o, ps[n], indent);
      Assoc(old(o.text), done + sep, PropJson(ps[n], indent));
      PropsNext(ps, indent, n);
      n := n + 1;
    }
    assert n == |ps|;
    PrintEnd(o, n);
    Assoc(old(o.text), PropsLead(ps, indent, n), if n > 0 then "\n" else "");
  }

  /** One turn of the loop over the children: the separator unless it
      is the first child, then the n-th child one level deeper than the
      one before it. */
  method PrintChild(o: Output, c: Component, depth: nat, n: nat, d: nat)
    requires n < |c.comps| && d == depth + n + 1
    modifies o
    ensures o.text == old(o.text) + ((if n > 0 then ",\n" else "") + ComponentJson(c.comps[n], depth + n + 1))
    decreases c, 0, 0
  {
    PrintSeparator(o, n);
    ComponentPrintJson(o, c.comps[n], d);
    SameDepth(c.comps[n], d, depth + n + 1);
    Assoc(old(o.text), if n > 0 then ",\n" else "", ComponentJson(c.comps[n], depth + n + 1));
  }

  /** The same component at the same depth prints the same text. */
  lemma SameDepth(c: Component, d: nat, e: nat)
    requires d == e
    ensures ComponentJson(c, d) == ComponentJson(c, e)
  {
  }

  /** The loop over the children of component_print_json; d stands for
      its parameter depth, which the loop increments. What is printed
      and what remains to be printed always make up the whole list. */
  method PrintChildren(o: Output, c: Component, depth: nat)
    modifies o
    ensures o.text == old(o.text) + KidsFrom(c, depth, 0)
    decreases c, 0, 1
  {
    var n := 0;
    var d := depth;
    while n < |c.comps|
      invariant n <= |c.comps| && d == depth + n
      invariant o.text + KidsFrom(c, depth, n) == old(o.text) + KidsFrom(c, depth, 0)
    {
      ghost var before := o.text;
      ghost var item := (if n > 0 then ",\n" else "") + ComponentJson(c.comps[n], depth + n + 1);
      d := d + 1;
      PrintChild(o, c, depth, n, d);
      Assoc(before, item, KidsFrom(c, depth, n + 1));
      n := n + 1;
    }
    assert n == |c.comps|;
    PrintEnd(o, n);
  }

  /** component_print_json. The property list of a component is never
      null, so its "(no properties)" branch is not modelled. */
  method ComponentPrintJson(o: Output, c: Component, depth: nat)
    modifies o
    ensures o.text == old(o.text) + ComponentJson(c, depth)
    decreases c, 1
  {
    ghost var base := o.text;
    var indent := Indent(depth);
    var h1, h2, h3 := indent + " {\n", indent + "  \"name\": \"" + c.name + "\",\n", indent + "  \"prop\": [\n";
    o.Put(h1);
    o.Put(h2);
    Assoc(base, h1, h2);
    o.Put(h3);
    Assoc(base, h1 + h2, h3);
    ghost var acc := JsonHead(c.name, indent);
    ghost var props := PropsText(c.props, indent);
    PrintProps(o, c.props, indent);
    Assoc(base, acc, props);
    acc := acc + props;
    var m1, m2 := indent + "   ],\n", indent + "  \"components\": [\n";
    o.Put(m1);
    o.Put(m2);
    Assoc(base, acc, m1);
    Assoc(base, acc + m1, m2);
    Assoc(acc, m1, m2);
    acc := acc + JsonMiddle(indent);
    ghost var kids := KidsFrom(c, depth, 0);
    PrintChildren(o, c, depth);
    Assoc(base, acc, kids);
    acc := acc + kids;
    var t1, t2 := indent + "   ]\n", indent + " }\n";
    o.Put(t1);
    o.Put(t2);
    Assoc(base, acc, t1);
    Assoc(base, acc + t1, t2);
    Assoc(acc, t1, t2);
  }

  /** The text print_json prints for the top container: its children, each
      at depth 1 and without separators, between "[" and "]". */
  function Json(c: Component): string {
    "[\n" + TopItems(c.comps, |c.comps|) + "]\n"
  }

  /** The first n children printed at depth 1, one after the other. */
  function TopItems(cs: seq<Component>, n: nat): string
    requires n <= |cs|
  {
    if n == 0 then "" else TopItems(cs, n - 1) + ComponentJson(cs[n - 1], 1)
  }

  /** One turn of the loop of print_json: the n-th child at depth 1. */
  method PrintTopChild(o: Output, c: Component, n: nat, ghost base: string)
    requires n < |c.comps| && o.text == base + TopItems(c.comps, n)
    modifies o
    ensures o.text == base + TopItems(c.comps, n + 1)
  {
    ComponentPrintJson(o, c.comps[n], 1);
    Assoc(base, TopItems(c.comps, n), ComponentJson(c.comps[n], 1));
  }

  /** print_json. */
  method PrintJson(o: Output, c: Component)
    modifies o
    ensures o.text == old(o.text) + Json(c)
  {
    ghost var base := old(o.text) + "[\n";
    o.Put("[\n");
    var n := 0;
    while n < |c.comps|
      invariant n <= |c.comps|
      invariant o.text == base + TopItems(c.comps, n)
    {
      PrintTopChild(o, c, n, base);
      n := n + 1;
    }
    assert n == |c.comps|;
    o.Put("]\n");
    Assoc(old(o.text), "[\n", TopItems(c.comps, n));
    Assoc(old(o.text), "[\n" + TopItems(c.comps, n), "]\n");
  }

  /** Unlike the children inside a component, the top-level children are
      all printed at depth 1 with nothing between them. */
  lemma TwoTopLevel(c: Component)
    requires |c.comps| == 2
    ensures Json(c) == "[\n" + ComponentJson(c.comps[0], 1) + ComponentJson(c.comps[1], 1) + "]\n"
  {
    var a, b := ComponentJson(c.comps[0], 1), ComponentJson(c.comps[1], 1);
    assert TopItems(c.comps, 1) == a by {
      assert "" + a == a;
    }
    Assoc("[\n", a, b);
  }


  /** The children of c as items: the k-th (from 0) is printed at
      depth + k + 1. */
  function ChildItems(c: Component, depth: nat): (r: seq<string>)
    ensures |r| == |c.comps| && forall k :: 0 <= k < |c.comps| ==> r[k] == ComponentJson(c.comps[k], depth + k + 1)
  {
    seq(|c.comps|, k requires 0 <= k < |c.comps| => ComponentJson(c.comps[k], depth + k + 1))
  }

  /** The items of a non-empty list from the n-th on, with ",\n" in
      front unless n is 0, and "\n" after the last. */
  function JoinedFrom(xs: seq<string>, n: nat): string
    requires n <= |xs|
    decreases |xs| - n
  {
    if n == |xs| then (if n > 0 then "\n" else "")
    else (if n > 0 then ",\n" else "") + xs[n] + JoinedFrom(xs, n + 1)
  }

  /** A list with one more item in front. */
  lemma {:induction false} SepCons(x: string, ys: seq<string>)
    requires ys != []
    ensures Sep([x] + ys) == x + (",\n" + Sep(ys))
    decreases |ys|
  {
    var xs := [x] + ys;
    var l := ys[|ys| - 1];
    assert xs[..|xs| - 1] == [x] + ys[..|ys| - 1];
    if |ys| == 1 {
      assert xs[..|xs| - 1] == [x];
      Assoc(x, ",\n", l);
    } else {
      var p := ys[..|ys| - 1];
      SepCons(x, p);
      Assoc(x, ",\n" + Sep(p), ",\n");
      Assoc(x, ",\n" + Sep(p) + ",\n", l);
      Assoc(",\n", Sep(p), ",\n");
      Assoc(",\n", Sep(p) + ",\n", l);
    }
  }

  /** Read from the front, the list is the same as read from the back. */
  lemma {:induction false} JoinedFromSep(xs: seq<string>, n: nat)
    requires n < |xs|
    ensures JoinedFrom(xs, n) == (if n > 0 then ",\n" else "") + (Sep(xs[n..]) + "\n")
    decreases |xs| - n
  {
    var sep := if n > 0 then ",\n" else "";
    if n + 1 == |xs| {
      assert xs[n..] == [xs[n]];
      Assoc(sep, xs[n], "\n");
    } else {
      JoinedFromSep(xs, n + 1);
      var rest := Sep(xs[n + 1..]);
      assert xs[n..] == [xs[n]] + xs[n + 1..];
      SepCons(xs[n], xs[n + 1..]);
      Assoc(sep, xs[n], ",\n" + rest + "\n");
      Assoc(xs[n], ",\n" + rest, "\n");
      Assoc(",\n", rest, "\n");
    }
  }

  /** Reading the whole list from the front gives Joined. */
  lemma JoinedFromStart(xs: seq<string>)
    ensures JoinedFrom(xs, 0) == Joined(xs)
  {
    if xs != [] {
      JoinedFromSep(xs, 0);
      assert xs[0..] == xs;
    }
  }

  /** One more item read from the front. */
  lemma FromStep(xs: seq<string>, n: nat, x: string, rest: string)
    requires n < |xs| && xs[n] == x && JoinedFrom(xs, n + 1) == rest
    ensures JoinedFrom(xs, n) == (if n > 0 then ",\n" else "") + x + rest
  {
  }

  /** The children from the n-th on as printed are their items read from
      the n-th on. */
  lemma {:induction false} KidsItems(c: Component, depth: nat, n: nat)
    requires n <= |c.comps|
    ensures KidsFrom(c, depth, n) == JoinedFrom(ChildItems(c, depth), n)
    decreases |c.comps| - n
  {
    if n < |c.comps| {
      KidsItems(c, depth, n + 1);
      FromStep(ChildItems(c, depth), n, ComponentJson(c.comps[n], depth + n + 1), KidsFrom(c, depth, n + 1));
    }
  }

  /** The first n property objects as printed are their items listed. */
  lemma {:induction false} PropsListed(ps: seq<Property>, indent: string, n: nat)
    requires n <= |ps|
    ensures PropsLead(ps, indent, n) == Listed(PropItems(ps, indent)[..n])
  {
    if n > 0 {
      PropsListed(ps, indent, n - 1);
      var items := PropItems(ps, indent);
      assert items[..n] == items[..n - 1] + [items[n - 1]];
      ListedSnoc(items[..n - 1], items[n - 1]);
    }
  }

  /** The property objects are listed with ",\n" between them and "\n"
      after the last one. */
  lemma PropsJoined(ps: seq<Property>, indent: string)
    ensures PropsText(ps, indent) == Joined(PropItems(ps, indent))
  {
    var items := PropItems(ps, indent);
    PropsListed(ps, indent, |ps|);
    assert items[..|ps|] == items;
    ListedJoined(items);
  }

  /** The children are listed with ",\n" between them and "\n" after
      the last one, the k-th at depth + k + 1. */
  lemma KidsJoined(c: Component, depth: nat)
    ensures KidsFrom(c, depth, 0) == Joined(ChildItems(c, depth))
  {
    KidsItems(c, depth, 0);
    JoinedFromStart(ChildItems(c, depth));
  }

  /** Inside a component, two children are printed at depths one and two
      deeper, with ",\n" between them. */
  lemma TwoChildren(c: Component, depth: nat)
    requires |c.comps| == 2
    ensures KidsFrom(c, depth, 0) ==
      ComponentJson(c.comps[0], depth + 1) + ",\n" + ComponentJson(c.comps[1], depth + 2) + "\n"
  {
    var a, b := ComponentJson(c.comps[0], depth + 1), ComponentJson(c.comps[1], depth + 2);
    assert KidsFrom(c, depth, 1) == ",\n" + b + "\n";
    assert KidsFrom(c, depth, 0) == "" + a + (",\n" + b + "\n");
    assert "" + a == a;
    Assoc(a, ",\n" + b, "\n");
    Assoc(a, ",\n", b);
  }

}
