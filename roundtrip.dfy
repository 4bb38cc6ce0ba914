/** A reference writer for the component tree, the partner of
    parse_component: it writes each component as a BEGIN: line, its
    properties, its children and an END: line, each list in the order its
    elements were read (the lists are stored newest first). Reading the
    written lines back with parse_component rebuilds the tree. */
module CicalRoundTrip {
  import opened Util
  import opened Models
  import opened CicalReader
  import opened Cical

  /** The line a property was read from: NAME:VALUE when it had no
      parameter text, NAME;PARAM:VALUE otherwise. */
  function PropLine(p: Property): string {
    var param := if p.param.Some? then p.param.value else "";
    var value := if p.value.Some? then p.value.value else "";
    if param == "" then p.name + ":" + value else p.name + ";" + param + ":" + value
  }

  /** A property that reads back as itself from its line: both parts
      present, no parsed parameter list, a name and a parameter text that
      hold no unquoted stop character and close their quotes, and a line
      that is not taken for a BEGIN: or END: line. */
  predicate Writable(p: Property) {
    p.param.Some? && p.value.Some? && p.params == [] &&
    Plain(p.name, NameStops) && Plain(p.param.value, ParamStops) &&
    !StartsWith(PropLine(p), "BEGIN:") && !StartsWith(PropLine(p), "END:")
  }

  /** Every property of the list is writable. */
  predicate WritableProps(ps: seq<Property>)
    decreases |ps|
  {
    ps == [] || (Writable(ps[|ps| - 1]) && WritableProps(ps[..|ps| - 1]))
  }

  /** A tree every property of which is writable. */
  ghost predicate WritableTree(c: Component)
    decreases c
  {
    WritableProps(c.props) &&
    (forall k :: 0 <= k < |c.comps| ==> WritableTree(c.comps[k]))
  }

  /** The lines of the properties, oldest (last stored) first, in front of
      rest. */
  function PropLines(ps: seq<Property>, rest: seq<string>): seq<string>
    decreases |ps|
  {
    if ps == [] then rest else [PropLine(ps[|ps| - 1])] + PropLines(ps[..|ps| - 1], rest)
  }

  /** The lines of a component in front of rest: BEGIN:, its properties,
      its children, END:. */
  function EmitOnto(c: Component, rest: seq<string>): seq<string>
    decreases c, 1
  {
    ["BEGIN:" + c.name] + PropLines(c.props, EmitChildren(c, |c.comps|, ["END:" + c.name] + rest))
  }

  /** The lines of the first i children of c in front of rest, the i-th
      (the oldest of them) first. */
  function EmitChildren(c: Component, i: nat, rest: seq<string>): seq<string>
    requires i <= |c.comps|
    decreases c, 0, i
  {
    if i == 0 then rest else EmitOnto(c.comps[i - 1], EmitChildren(c, i - 1, rest))
  }

  /** The lines of a component. */
  function Emit(c: Component): seq<string> {
    EmitOnto(c, [])
  }

  /** parse_property reads a writable property back from its line. */
  lemma PropertyRoundTrip(p: Property)
    requires Writable(p)
    ensures PropLine(p) != "" && PropertyParse(PropLine(p)) == Some(p)
  {
    if p.param.value == "" {
      PropertyParseNoParam(p.name, p.value.value);
    } else {
      PropertyParseWithParam(p.name, p.param.value, p.value.value);
    }
  }

  /** Moving the last element of s to the front of x. */
  lemma LastFirst<T>(s: seq<T>, x: seq<T>)
    requires s != []
    ensures s[..|s| - 1] + ([s[|s| - 1]] + x) == s + x
  {
    assert s == s[..|s| - 1] + [s[|s| - 1]];
  }

  /** Moving the i-th element of s from the end of its first i to the
      front of x. */
  lemma TakeLast<T>(s: seq<T>, i: nat, x: seq<T>)
    requires 0 < i <= |s|
    ensures s[..i] + x == s[..i - 1] + ([s[i - 1]] + x)
  {
    LastFirst(s[..i], x);
    assert s[..i][..i - 1] == s[..i - 1];
  }

  /** The first i elements of s in front of x are the first i - 1 in
      front of y, when y is x with the i-th in front. */
  lemma ShiftChild<T>(s: seq<T>, i: nat, x: seq<T>, y: seq<T>, z: seq<T>)
    requires 0 < i <= |s| && y == [s[i - 1]] + x && z == s[..i] + x
    ensures z == s[..i - 1] + y
  {
    TakeLast(s, i, x);
  }

  /** The first line of [l] + x is l, and x follows it. */
  lemma Cons(l: string, x: seq<string>)
    ensures ([l] + x)[0] == l && ([l] + x)[1..] == x
  {
  }

  /** Property lines read into c prepend the properties one by one, so
      c ends with them in the order they were stored. */
  lemma {:induction false} BuildProps(ps: seq<Property>, tail: seq<string>, c: Component)
    requires WritableProps(ps)
    ensures Build(PropLines(ps, tail), c) == Build(tail, c.(props := ps + c.props))
    decreases |ps|
  {
    if ps == [] {
      assert c.(props := ps + c.props) == c;
    } else {
      var n := |ps| - 1;
      var l := PropLine(ps[n]);
      var ls := PropLines(ps, tail);
      Cons(l, PropLines(ps[..n], tail));
      PropertyRoundTrip(ps[n]);
      BuildTakesProperty(ls, c);
      var c' := c.(props := [ps[n]] + c.props);
      assert ComponentPropertyAdd(Some(c), PropertyParse(l)).value == c';
      BuildProps(ps[..n], tail, c');
      LastFirst(ps, c.props);
      assert c'.(props := ps[..n] + c'.props) == c.(props := ps + c.props);
    }
  }

  /** An END: line is not a BEGIN: line. */
  lemma EndLine(name: string)
    ensures StartsWith("END:" + name, "END:") && !StartsWith("END:" + name, "BEGIN:")
  {
    assert ("END:" + name)[..4] == "END:";
    assert ("END:" + name)[0] == 'E';
  }

  /** The name of a BEGIN: line follows its first six characters. */
  lemma BeginLine(name: string)
    ensures StartsWith("BEGIN:" + name, "BEGIN:") && ("BEGIN:" + name)[6..] == name
  {
    assert ("BEGIN:" + name)[..6] == "BEGIN:";
  }

  /** The lines of a writable component, read into c, make it c's newest
      child. */
  lemma {:induction false} BuildEmit(d: Component, tail: seq<string>, c: Component)
    requires WritableTree(d)
    ensures Build(EmitOnto(d, tail), c) == Build(tail, c.(comps := [d] + c.comps))
    decreases d, 2
  {
    var body := PropLines(d.props, EmitChildren(d, |d.comps|, ["END:" + d.name] + tail));
    Cons("BEGIN:" + d.name, body);
    BeginLine(d.name);
    BuildTakesChild(EmitOnto(d, tail), c);
    BodyOfEmit(d, tail);
  }

  /** What follows the BEGIN: line of a writable component, read into a
      fresh component of its name, rebuilds it and leaves what comes after
      its END: line. */
  lemma {:induction false} BodyOfEmit(d: Component, tail: seq<string>)
    requires WritableTree(d)
    ensures var r := Build(PropLines(d.props, EmitChildren(d, |d.comps|, ["END:" + d.name] + tail)), ComponentCreate(d.name));
      r.comp == d && r.rest == tail
    decreases d, 1
  {
    var end := ["END:" + d.name] + tail;
    var kids := EmitChildren(d, |d.comps|, end);
    var open := Component(d.name, d.props, []);
    var empty := ComponentCreate(d.name);
    BuildProps(d.props, kids, empty);
    assert empty.(props := d.props + empty.props) == open by {
      assert d.props + empty.props == d.props;
    }
    assert d.comps == d.comps[..|d.comps|] + open.comps;
    BuildChildren(d, |d.comps|, end, open, d);
    EndLine(d.name);
    Cons("END:" + d.name, tail);
    BuildStops(end, d);
  }

  /** The lines of the first i children of d, read into c, prepend them
      one by one, the i-th first: c ends as c2, c with the first i
      children of d in front of its own. */
  lemma {:induction false} BuildChildren(d: Component, i: nat, tail: seq<string>, c: Component, c2: Component)
    requires WritableTree(d) && i <= |d.comps|
    requires c2.name == c.name && c2.props == c.props && c2.comps == d.comps[..i] + c.comps
    ensures Build(EmitChildren(d, i, tail), c) == Build(tail, c2)
    decreases d, 0, i
  {
    if i == 0 {
      assert c2 == c;
    } else {
      var x := d.comps[i - 1];
      ChildWritable(d, i);
      BuildEmit(x, EmitChildren(d, i - 1, tail), c);
      var c' := c.(comps := [x] + c.comps);
      ShiftChild(d.comps, i, c.comps, c'.comps, c2.comps);
      BuildChildren(d, i - 1, tail, c', c2);
    }
  }

  /** The children of a writable tree are writable. */
  lemma ChildWritable(d: Component, i: nat)
    requires WritableTree(d) && 0 < i <= |d.comps|
    ensures WritableTree(d.comps[i - 1])
  {
  }

  /** parse_component on the lines of a writable component rebuilds it as
      the newest child of top, and stops at the end of the lines. */
  lemma ParseEmitted(d: Component, top: Component)
    requires WritableTree(d)
    ensures Build(Emit(d), top) == Parsed(top.(comps := [d] + top.comps), [])
  {
    BuildEmit(d, [], top);
  }

  /** parse_icalendar on any stream that folds the lines of a writable
      component rebuilds that component as the newest child of top. */
  lemma ParseStream(fs: seq<Fold>, d: Component, top: Component)
    requires forall i :: 0 <= i < |fs| ==> CicalReader.Writable(fs[i])
    requires WritableTree(d) && Unfolded(fs) == Emit(d)
    ensures Build(Lines(ReaderState(Stream(fs), false, 0, "")), top).comp == top.(comps := [d] + top.comps)
  {
    assert fs != [] by {
      assert Emit(d) != [];
    }
    LinesOfStream(fs, ReaderState(Stream(fs), false, 0, ""));
    ParseEmitted(d, top);
  }
}
