/** The content-line tokenizer and the recursive tree builder of
    src/cical.c. A C string is modelled by the characters before its NUL. */
module Cical {
  import opened Util
  import opened Models
  import opened CicalReader

  // ---------------------------------------------------------------------
  // read_until

  /** An odd number of '"' lies among the first i characters of s. */
  function OddQuotes(s: string, i: nat): bool
    requires i <= |s|
  {
    i > 0 && (OddQuotes(s, i - 1) != (s[i - 1] == '"'))
  }

  /** read_until stops at index i: a character of `stop` outside quotes. */
  predicate StopsAt(s: string, stop: set<char>, i: nat) {
    i < |s| && s[i] in stop && !OddQuotes(s, i)
  }

  /** No index of s is one where read_until stops. */
  predicate NoStop(s: string, stop: set<char>) {
    forall j :: 0 <= j < |s| ==> !StopsAt(s, stop, j)
  }

  /** The loop of read_until from index i, q quotes having been seen. */
  function UntilFrom(s: string, stop: set<char>, i: nat, q: nat): (k: nat)
    requires i <= |s|
    ensures i <= k <= |s|
    decreases |s| - i
  {
    if i == |s| || (s[i] in stop && q % 2 == 0) then i
    else UntilFrom(s, stop, i + 1, if s[i] == '"' then q + 1 else q)
  }

  /** The index read_until(s, stop) returns: never null, at worst the NUL. */
  function Until(s: string, stop: set<char>): (k: nat)
    ensures k <= |s|
  {
    UntilFrom(s, stop, 0, 0)
  }

  lemma {:induction false} UntilFromFirst(s: string, stop: set<char>, i: nat, q: nat)
    requires i <= |s| && (q % 2 == 1 <==> OddQuotes(s, i))
    requires forall j :: 0 <= j < i ==> !StopsAt(s, stop, j)
    ensures var k := UntilFrom(s, stop, i, q);
      (k < |s| ==> StopsAt(s, stop, k)) && forall j :: 0 <= j < k ==> !StopsAt(s, stop, j)
    decreases |s| - i
  {
    if i < |s| && !(s[i] in stop && q % 2 == 0) {
      UntilFromFirst(s, stop, i + 1, if s[i] == '"' then q + 1 else q);
    }
  }

  /** read_until returns the first index holding a character of `stop`
      with an even number of '"' before it, or the end of the string. */
  lemma UntilFirst(s: string, stop: set<char>)
    ensures Until(s, stop) < |s| ==> StopsAt(s, stop, Until(s, stop))
    ensures forall j :: 0 <= j < Until(s, stop) ==> !StopsAt(s, stop, j)
  {
    UntilFromFirst(s, stop, 0, 0);
  }

  /** Only the first stop satisfies what UntilFirst states. */
  lemma UntilAt(s: string, stop: set<char>, k: nat)
    requires k <= |s| && (k < |s| ==> StopsAt(s, stop, k))
    requires forall j :: 0 <= j < k ==> !StopsAt(s, stop, j)
    ensures Until(s, stop) == k
  {
    UntilFirst(s, stop);
  }

  /** read_until runs to the end exactly when nothing stops it. */
  lemma UntilEnd(s: string, stop: set<char>)
    ensures Until(s, stop) == |s| <==> NoStop(s, stop)
  {
    UntilFirst(s, stop);
  }

  /** Quote parity over a prefix of x + y is that over x. */
  lemma {:induction false} OddQuotesPrefix(x: string, y: string, j: nat)
    requires j <= |x|
    ensures OddQuotes(x + y, j) == OddQuotes(x, j)
  {
    if j > 0 {
      OddQuotesPrefix(x, y, j - 1);
    }
  }

  /** Quote parity past x adds that of x to that of y. */
  lemma {:induction false} OddQuotesSuffix(x: string, y: string, m: nat)
    requires m <= |y|
    ensures OddQuotes(x + y, |x| + m) == (OddQuotes(x, |x|) != OddQuotes(y, m))
  {
    if m == 0 {
      OddQuotesPrefix(x, y, |x|);
    } else {
      OddQuotesSuffix(x, y, m - 1);
    }
  }

  /** Text read_until passes over in one go: no stop, balanced quotes. */
  predicate Plain(x: string, stop: set<char>) {
    NoStop(x, stop) && !OddQuotes(x, |x|)
  }

  /** After a plain x, x + y stops exactly where y does. */
  lemma StopsInJoin(x: string, y: string, stop: set<char>, j: nat)
    requires Plain(x, stop) && j < |x| + |y|
    ensures StopsAt(x + y, stop, j) <==> j >= |x| && StopsAt(y, stop, j - |x|)
  {
    if j < |x| {
      OddQuotesPrefix(x, y, j);
      assert (x + y)[j] == x[j];
      assert !StopsAt(x, stop, j);
    } else {
      OddQuotesSuffix(x, y, j - |x|);
      assert (x + y)[j] == y[j - |x|];
    }
  }

  /** A plain stretch is skipped whole. */
  lemma UntilAppend(x: string, y: string, stop: set<char>)
    requires Plain(x, stop)
    ensures Until(x + y, stop) == |x| + Until(y, stop)
  {
    UntilFirst(y, stop);
    var m := Until(y, stop);
    forall j | 0 <= j < |x| + m
      ensures !StopsAt(x + y, stop, j)
    {
      StopsInJoin(x, y, stop, j);
    }
    if m < |y| {
      StopsInJoin(x, y, stop, |x| + m);
    }
    UntilAt(x + y, stop, |x| + m);
  }

  /** read_until(s, stop): the scanning loop with its quote counter. */
  method ReadUntil(s: string, stop: set<char>) returns (k: nat)
    ensures k == Until(s, stop)
  {
    var quotes := 0;
    k := 0;
    while k < |s| && (s[k] !in stop || quotes % 2 == 1)
      invariant k <= |s|
      invariant UntilFrom(s, stop, k, quotes) == Until(s, stop)
    {
      if s[k] == '"' {
        quotes := quotes + 1;
      }
      k := k + 1;
    }
  }

  // ---------------------------------------------------------------------
  // property_parse

  /** The stop sets property_parse hands to read_until: ":;" for the name,
      ":" for the parameter text. */
  const NameStops: set<char> := {':', ';'}
  const ParamStops: set<char> := {':'}

  /** property_parse: the name runs to the first unquoted ':' or ';'; after
      a ';' the raw parameter text runs to the next unquoted ':', quotes
      being counted afresh; the value is the rest of the line, verbatim.
      Null (None) when no ':' ends the name or the parameter text. The
      parameter text is "" when there is no ';'. */
  function PropertyParse(s: string): (r: Option<Property>)
    ensures r.Some? ==> r.value.param.Some? && r.value.value.Some? && r.value.params == []
  {
    var e := Until(s, NameStops);
    var name := s[..e];
    if e < |s| && s[e] == ';' then
      var t := s[e + 1..];
      var e2 := Until(t, ParamStops);
      if e2 < |t| then Some(Property(name, Some(t[..e2]), [], Some(t[e2 + 1..])))
      else None
    else if e < |s| then Some(Property(name, Some(""), [], Some(s[e + 1..])))
    else None
  }

  /** The text before the first stop of s is plain. */
  lemma BeforeStopPlain(s: string, stop: set<char>, e: nat)
    requires e <= |s| && (forall j :: 0 <= j < e ==> !StopsAt(s, stop, j))
    requires e < |s| ==> StopsAt(s, stop, e)
    requires e == |s| ==> !OddQuotes(s, |s|)
    ensures Plain(s[..e], stop)
  {
    assert s[..e] + s[e..] == s;
    forall j | 0 <= j < e
      ensures !StopsAt(s[..e], stop, j)
    {
      OddQuotesPrefix(s[..e], s[e..], j);
      assert !StopsAt(s, stop, j);
    }
    OddQuotesPrefix(s[..e], s[e..], e);
  }

  /** A string joined around one character at index e. */
  lemma SplitAt(s: string, e: nat)
    requires e < |s|
    ensures s == s[..e] + [s[e]] + s[e + 1..]
  {
  }

  /** The line rebuilt from a parsed property: name, then ";" and the raw
      parameter text when a ';' came first, then ":" and the value. The
      name and the parameter text are plain. */
  lemma PropertyParseRebuilds(s: string)
    requires PropertyParse(s).Some?
    ensures var p := PropertyParse(s).value;
      Plain(p.name, NameStops) && Plain(p.param.value, ParamStops) &&
      |p.name| < |s| &&
      (s[|p.name|] == ':' ==> p.param.value == "" && s == p.name + ":" + p.value.value) &&
      (s[|p.name|] == ';' ==> s == p.name + ";" + p.param.value + ":" + p.value.value) &&
      (s[|p.name|] == ':' || s[|p.name|] == ';')
  {
    var e := Until(s, NameStops);
    UntilFirst(s, NameStops);
    BeforeStopPlain(s, NameStops, e);
    SplitAt(s, e);
    if s[e] == ';' {
      var t := s[e + 1..];
      var e2 := Until(t, ParamStops);
      UntilFirst(t, ParamStops);
      BeforeStopPlain(t, ParamStops, e2);
      SplitAt(t, e2);
    } else {
      NoStopEmpty(ParamStops);
    }
  }

  /** The empty string is plain. */
  lemma NoStopEmpty(stop: set<char>)
    ensures Plain("", stop)
  {
  }

  /** A line built from a plain name, plain parameter text and any value
      parses back into them. */
  lemma PropertyParseWithParam(name: string, param: string, value: string)
    requires Plain(name, NameStops) && Plain(param, ParamStops)
    ensures PropertyParse(name + ";" + param + ":" + value) == Some(Property(name, Some(param), [], Some(value)))
  {
    var s := name + ";" + param + ":" + value;
    assert s == name + (";" + param + ":" + value);
    UntilAppend(name, ";" + param + ":" + value, NameStops);
    UntilAt(";" + param + ":" + value, NameStops, 0);
    var t := s[|name| + 1..];
    assert t == param + (":" + value);
    UntilAppend(param, ":" + value, ParamStops);
    UntilAt(":" + value, ParamStops, 0);
  }

  /** A line with a plain name and no parameters parses back into them,
      with "" as the parameter text. */
  lemma PropertyParseNoParam(name: string, value: string)
    requires Plain(name, NameStops)
    ensures PropertyParse(name + ":" + value) == Some(Property(name, Some(""), [], Some(value)))
  {
    var s := name + ":" + value;
    assert s == name + (":" + value);
    UntilAppend(name, ":" + value, NameStops);
    UntilAt(":" + value, NameStops, 0);
  }

  /** property_parse gives null exactly when no unquoted ':' or ';' ends
      the name, or when a ';' does and no unquoted ':' ends the parameter
      text after it. */
  lemma PropertyParseNone(s: string)
    ensures var e := Until(s, NameStops);
      PropertyParse(s).None? <==>
        NoStop(s, NameStops) || (e < |s| && s[e] == ';' && NoStop(s[e + 1..], ParamStops))
  {
    UntilEnd(s, NameStops);
    var e := Until(s, NameStops);
    if e < |s| {
      UntilEnd(s[e + 1..], ParamStops);
    }
  }

  /** Without a quote, an even number of quotes. */
  lemma {:induction false} OddQuotesAbsent(s: string, i: nat)
    requires i <= |s| && '"' !in s[..i]
    ensures !OddQuotes(s, i)
  {
    if i > 0 {
      assert s[i - 1] == s[..i][i - 1];
      assert s[..i - 1] == s[..i][..i - 1];
      OddQuotesAbsent(s, i - 1);
    }
  }

  /** Text with no quote and no stop character is plain. */
  lemma PlainText(x: string, stop: set<char>)
    requires '"' !in x && forall j :: 0 <= j < |x| ==> x[j] !in stop
    ensures Plain(x, stop)
  {
    assert x[..|x|] == x;
    OddQuotesAbsent(x, |x|);
  }

  /** A quoted string is plain whatever stop characters it holds, as long
      as the quote itself is not a stop character. */
  lemma PlainQuoted(q: string, stop: set<char>)
    requires '"' !in q && '"' !in stop
    ensures Plain("\"" + q + "\"", stop)
  {
    var x := "\"" + q + "\"";
    forall j | 0 <= j < |x|
      ensures !StopsAt(x, stop, j)
    {
      if 0 < j <= |q| {
        OddQuotesInside(q, j - 1);
      }
    }
    OddQuotesInside(q, |q|);
  }

  /** Inside "q" every index past the opening quote is quoted. */
  lemma {:induction false} OddQuotesInside(q: string, m: nat)
    requires '"' !in q && m <= |q|
    ensures OddQuotes("\"" + q + "\"", 1 + m)
  {
    var x := "\"" + q + "\"";
    if m > 0 {
      OddQuotesInside(q, m - 1);
      assert x[m] == q[m - 1];
    }
  }

  /** Plain text joined to plain text is plain. */
  lemma PlainJoin(x: string, y: string, stop: set<char>)
    requires Plain(x, stop) && Plain(y, stop)
    ensures Plain(x + y, stop)
  {
    forall j | 0 <= j < |x + y|
      ensures !StopsAt(x + y, stop, j)
    {
      StopsInJoin(x, y, stop, j);
    }
    OddQuotesSuffix(x, y, |y|);
  }

  /** The parameter text keeps quoted colons: N;P="a:b":v. */
  lemma PropertyParseQuotedColon(line: string)
    requires line == "N" + ";" + "P=\"a:b\"" + ":" + "v"
    ensures PropertyParse(line) == Some(Property("N", Some("P=\"a:b\""), [], Some("v")))
  {
    PlainText("N", NameStops);
    PlainText("P=", ParamStops);
    PlainQuoted("a:b", ParamStops);
    assert "\"" + "a:b" + "\"" == "\"a:b\"";
    PlainJoin("P=", "\"a:b\"", ParamStops);
    assert "P=" + "\"a:b\"" == "P=\"a:b\"";
    PropertyParseWithParam("N", "P=\"a:b\"", "v");
  }

  // ---------------------------------------------------------------------
  // component_create, component_add, component_property_add

  /** component_create: a copy of the name and two empty lists. */
  function ComponentCreate(name: string): (c: Component)
    ensures c.name == name && c.props == [] && c.comps == []
  {
    Component(name, [], [])
  }

  /** component_add: c is prepended to dst's children; a null argument
      changes nothing. */
  function ComponentAdd(dst: Option<Component>, c: Option<Component>): (r: Option<Component>)
    ensures dst.None? <==> r.None?
    ensures c.None? ==> r == dst
    ensures dst.Some? && c.Some? ==> r.value.name == dst.value.name && r.value.props == dst.value.props
    ensures dst.Some? && c.Some? ==> |r.value.comps| == |dst.value.comps| + 1 && r.value.comps[0] == c.value && r.value.comps[1..] == dst.value.comps
  {
    if dst.None? || c.None? then dst
    else Some(dst.value.(comps := [c.value] + dst.value.comps))
  }

  /** component_property_add: p is prepended to c's properties; a null
      argument changes nothing. */
  function ComponentPropertyAdd(c: Option<Component>, p: Option<Property>): (r: Option<Component>)
    ensures c.None? <==> r.None?
    ensures p.None? ==> r == c
    ensures c.Some? && p.Some? ==> r.value.name == c.value.name && r.value.comps == c.value.comps
    ensures c.Some? && p.Some? ==> |r.value.props| == |c.value.props| + 1 && r.value.props[0] == p.value && r.value.props[1..] == c.value.props
  {
    if c.None? || p.None? then c
    else Some(c.value.(props := [p.value] + c.value.props))
  }

  // ---------------------------------------------------------------------
  // parse_component

  /** What parse_component makes of the logical lines it is handed: the
      component it filled in and the lines it left unread. */
  datatype Parsed = Parsed(comp: Component, rest: seq<string>)

  /** parse_component over the logical lines the reader yields, from `top`:
      an empty line (getline returns 0) or an END: line ends it; a BEGIN:
      line opens a child named by the rest of the line, parsed by the
      recursive call over the lines that follow and then prepended to the
      children of top; any other line is parsed as a property and, when
      it parses, prepended to the properties of top. The end of the lines
      (end of file) ends it too, with whatever is open attached. */
  function Build(ls: seq<string>, top: Component): (r: Parsed)
    ensures |r.rest| <= |ls| && r.comp.name == top.name
    ensures ls != [] ==> |r.rest| < |ls|
    decreases |ls|
  {
    if ls == [] then Parsed(top, [])
    else
      var l := ls[0];
      if l == "" then Parsed(top, ls[1..])
      else if StartsWith(l, "BEGIN:") then
        var child := Build(ls[1..], ComponentCreate(l[6..]));
        Build(child.rest, ComponentAdd(Some(top), Some(child.comp)).value)
      else if StartsWith(l, "END:") then Parsed(top, ls[1..])
      else Build(ls[1..], ComponentPropertyAdd(Some(top), PropertyParse(l)).value)
  }

  /** Before the end of the stream, the logical line read next is the
      first of the lines still to come, and the rest follow from the state
      after it. */
  lemma NextOfLines(before: ReaderState, after: ReaderState, line: string)
    requires Good(before) && !before.eof
    requires line == NextLine(before, BufSize).0 && after == NextLine(before, BufSize).1
    ensures Lines(before) != [] && Lines(before)[0] == line && Lines(after) == Lines(before)[1..]
  {
  }

  /** An empty line or an END: line ends the component after one line. */
  lemma BuildStops(ls: seq<string>, c: Component)
    requires ls != [] && (ls[0] == "" || (StartsWith(ls[0], "END:") && !StartsWith(ls[0], "BEGIN:")))
    ensures Build(ls, c).comp == c && Build(ls, c).rest == ls[1..]
  {
  }

  /** Any other line that is not a BEGIN: is parsed as a property of c. */
  lemma BuildTakesProperty(ls: seq<string>, c: Component)
    requires ls != [] && ls[0] != "" && !StartsWith(ls[0], "BEGIN:") && !StartsWith(ls[0], "END:")
    ensures Build(ls, c) == Build(ls[1..], ComponentPropertyAdd(Some(c), PropertyParse(ls[0])).value)
  {
  }

  /** A BEGIN: line opens a child, built from the lines after it, that is
      added to c before the lines after the child are read into c. */
  lemma BuildTakesChild(ls: seq<string>, c: Component)
    requires ls != [] && StartsWith(ls[0], "BEGIN:")
    ensures var child := Build(ls[1..], ComponentCreate(ls[0][6..]));
      Build(ls, c) == Build(child.rest, ComponentAdd(Some(c), Some(child.comp)).value)
  {
  }

  /** parse_component(r, top): reads logical lines until one comes back
      empty or is an END: line, recursing on BEGIN: lines. The component
      ends up as Build makes it, and the stream is left at the lines Build
      did not consume. */
  method ParseComponent(r: Reader, top: Component) returns (c: Component)
    requires r.Valid()
    modifies r
    decreases Measure(r.State())
    ensures r.Valid() && Measure(r.State()) <= Measure(old(r.State()))
    ensures c == Build(Lines(old(r.State())), top).comp
    ensures Lines(r.State()) == Build(Lines(old(r.State())), top).rest
  {
    ghost var goal := Build(Lines(r.State()), top);
    c := top;
    var done := false;
    while !done
      invariant r.Valid() && Measure(r.State()) <= Measure(old(r.State()))
      invariant !done ==> goal == Build(Lines(r.State()), c)
      invariant done ==> goal.comp == c && goal.rest == Lines(r.State())
      decreases !done, Measure(r.State())
    {
      ghost var before := r.State();
      ghost var todo := Lines(before);
      var len, line := ReaderGetline(BufSize, r);
      if len == 0 {
        if !before.eof {
          NextOfLines(before, r.State(), line);
          BuildStops(todo, c);
        }
        done := true;
      } else {
        NextOfLines(before, r.State(), line);
        if StartsWith(line, "BEGIN:") {
          BuildTakesChild(todo, c);
          var child := ParseComponent(r, ComponentCreate(line[6..]));
          c := ComponentAdd(Some(c), Some(child)).value;
        } else if StartsWith(line, "END:") {
          BuildStops(todo, c);
          done := true;
        } else {
          BuildTakesProperty(todo, c);
          c := ComponentPropertyAdd(Some(c), PropertyParse(line)).value;
        }
      }
    }
  }

  /** parse_icalendar(f, top): a reader over the stream, then
      parse_component on top. */
  method ParseICalendar(contents: string, top: Component) returns (c: Component)
    ensures c == Build(Lines(ReaderState(contents, false, 0, "")), top).comp
  {
    var r := new Reader(contents);
    c := ParseComponent(r, top);
  }
}
