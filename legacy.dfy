/** The older stand-alone parser in cical.c at the repository root: its own
    endline, which prefers CRLF; a parse_property that splits a line at the
    first ':' but stops looking at quotes after the first '"'; a 100-slot
    stack of components; and the loop of main, which pushes a component on
    every BEGIN: line, pops it into a flat array on every END: line and
    hands the lines in between to parse_property. */
module CicalLegacy {
  import opened Util
  import opened CicalReader
  import opened Cical

  // ---------------------------------------------------------------------
  // Component types

  /** enum comp_type. */
  datatype CompType = Unknown | VCalendar | VEvent | VTodo | VJournal | VFreeBusy
                    | VTimezone | VAlarm | Standard | Daylight

  /** find_comp_type: a stub that recognises no type at all. */
  function FindCompType(t: string): (r: CompType)
    ensures r == Unknown
  {
    Unknown
  }

  /** struct component as main uses it: only its type is ever set. `line`
      is the index of the BEGIN: line that created it, standing for the
      pointer init_component returns. */
  datatype Comp = Comp(line: nat, ctype: CompType)

  // ---------------------------------------------------------------------
  // endline

  /** The index of the first "\r\n" of s at or after i, or |s|. */
  function CrlfFrom(s: string, i: nat): (k: nat)
    requires i <= |s|
    ensures i <= k <= |s|
    ensures k < |s| ==> k + 1 < |s| && s[k] == '\r' && s[k + 1] == '\n'
    ensures forall j :: i <= j < k && j + 1 < |s| ==> !(s[j] == '\r' && s[j + 1] == '\n')
    decreases |s| - i
  {
    if i + 1 >= |s| then |s|
    else if s[i] == '\r' && s[i + 1] == '\n' then i
    else CrlfFrom(s, i + 1)
  }

  /** The index of the first c of s at or after i, or |s|. */
  function CharFrom(s: string, c: char, i: nat): (k: nat)
    requires i <= |s|
    ensures i <= k <= |s|
    ensures k < |s| ==> s[k] == c
    ensures forall j :: i <= j < k ==> s[j] != c
    decreases |s| - i
  {
    if i == |s| then |s|
    else if s[i] == c then i
    else CharFrom(s, c, i + 1)
  }

  /** s holds "\r\n" somewhere. */
  predicate HasCrlf(s: string) {
    exists j :: 0 <= j < |s| - 1 && s[j] == '\r' && s[j + 1] == '\n'
  }

  /** endline of cical.c: strstr(buf, "\r\n"), failing that
      strchr(buf, '\n'), failing that the end of the string. */
  function LegacyEndline(s: string): (k: nat)
    ensures k <= |s|
    ensures HasCrlf(s) ==>
      k < |s| - 1 && s[k] == '\r' && s[k + 1] == '\n' &&
      (forall j :: 0 <= j < k ==> !(s[j] == '\r' && s[j + 1] == '\n'))
    ensures !HasCrlf(s) ==> (k < |s| ==> s[k] == '\n') && forall j :: 0 <= j < k ==> s[j] != '\n'
  {
    var p := CrlfFrom(s, 0);
    if p < |s| then p else CharFrom(s, '\n', 0)
  }

  /** On text without '\r' or NUL the two endlines agree: both stop at the
      first '\n'. */
  lemma EndlinesAgree(s: string)
    requires forall j :: 0 <= j < |s| ==> s[j] != '\r' && s[j] != '\0'
    ensures LegacyEndline(s) == LineEnd(s)
  {
    var k := LegacyEndline(s);
    assert !HasCrlf(s);
    assert s[..k] == s[..k];
    forall j | 0 <= j < |s[..k]|
      ensures !IsTerminator(s[..k][j])
    {
      assert s[..k][j] == s[j];
    }
    LineEndAt(s, k);
  }

  /** They differ once a lone '\n' comes before a CRLF: the legacy endline
      skips to the CRLF, the one of src/cical_reader.c stops at the '\n'. */
  lemma EndlinesDiffer()
    ensures LegacyEndline("a\nb\r\n") == 3
    ensures LineEnd("a\nb\r\n") == 1
  {
    var s := "a\nb\r\n";
    assert HasCrlf(s) by {
      assert s[3] == '\r' && s[4] == '\n';
    }
    assert CrlfFrom(s, 0) == 3;
    LineEndAt(s, 1);
  }

  // ---------------------------------------------------------------------
  // parse_property

  /** What parse_property makes of a line: NoProperty when it reaches the
      end of the line first (it reports the line and splits nothing);
      otherwise the name, the text up to the NUL it writes, and the value,
      the text after that NUL. The value is None when the NUL falls on
      the line's own terminator, so that the value would be read from
      past the end of the line. */
  datatype Cut = NoProperty | Cut(name: string, value: Option<string>)

  /** The index of the first ':' or '"' of s at or after i, or |s|. */
  function MarkFrom(s: string, i: nat): (k: nat)
    requires i <= |s|
    ensures i <= k <= |s|
    ensures k < |s| ==> s[k] == ':' || s[k] == '"'
    ensures forall j :: i <= j < k ==> s[j] != ':' && s[j] != '"'
    decreases |s| - i
  {
    if i == |s| || s[i] == ':' || s[i] == '"' then i else MarkFrom(s, i + 1)
  }

  /** parse_property as written. The loop runs while in_quotes is false
      and *ptr is not ':', and a '"' sets in_quotes, so the loop ends just
      past the first quote: a ':' found first splits there, a '"' found
      first puts the NUL on the character after the quote, and that
      character is lost. */
  function LegacyCut(s: string): (r: Cut)
    ensures r.NoProperty? <==> forall j :: 0 <= j < |s| ==> s[j] != ':' && s[j] != '"'
    ensures r.Cut? ==> |r.name| <= |s| && (r.value.None? <==> r.name == s)
    ensures r.Cut? ==> forall j :: 0 <= j < |r.name| - 1 ==> r.name[j] != ':' && r.name[j] != '"'
    ensures r.Cut? && (r.name == [] || r.name[|r.name| - 1] != '"') ==>
      r.value.Some? && s == r.name + ":" + r.value.value
    ensures r.Cut? && r.name != [] && r.name[|r.name| - 1] == '"' && r.value.Some? ==>
      |r.name| < |s| && s == r.name + [s[|r.name|]] + r.value.value
  {
    var k := MarkFrom(s, 0);
    if k == |s| then NoProperty
    else if s[k] == ':' then Cut(s[..k], Some(s[k + 1..]))
    else if k + 1 < |s| then Cut(s[..k + 1], Some(s[k + 2..]))
    else Cut(s, None)
  }

  /** The loop of parse_property, the NUL at the end of the string being
      the position |s|. */
  method ParseProperty(s: string) returns (r: Cut)
    ensures r == LegacyCut(s)
  {
    var ptr := 0;
    var inQuotes := false;
    while !inQuotes && (ptr == |s| || s[ptr] != ':')
      invariant ptr <= |s|
      invariant !inQuotes ==> MarkFrom(s, ptr) == MarkFrom(s, 0)
      invariant inQuotes ==> 0 < ptr && MarkFrom(s, 0) == ptr - 1 && s[ptr - 1] == '"'
      decreases |s| - ptr
    {
      if ptr == |s| {
        return NoProperty;
      }
      if s[ptr] == '"' {
        inQuotes := !inQuotes;
      }
      ptr := ptr + 1;
    }
    if ptr < |s| {
      r := Cut(s[..ptr], Some(s[ptr + 1..]));
    } else {
      r := Cut(s, None);
    }
  }

  /** With no quote before the first ':', parse_property splits there, as
      the quote-aware scanner does. */
  lemma LegacyCutNoQuote(s: string, k: nat)
    requires k < |s| && s[k] == ':'
    requires forall j :: 0 <= j < k ==> s[j] != ':' && s[j] != '"'
    ensures LegacyCut(s) == Cut(s[..k], Some(s[k + 1..]))
    ensures LegacyCut(s) == FixedCut(s)
  {
    assert MarkFrom(s, 0) == k;
    assert '"' !in s[..k] by {
      forall j | 0 <= j < k
        ensures s[..k][j] != '"'
      {
        assert s[..k][j] == s[j];
      }
    }
    OddQuotesAbsent(s, k);
    UntilAt(s, ParamStops, k);
  }

  /** The quote-aware split the loop evidently meant: in_quotes toggles at
      every '"' and only a ':' outside quotes ends the name. This is what
      read_until of src/cical.c does with ":" as its stop set. */
  function FixedCut(s: string): (r: Cut)
    ensures r.Cut? ==> r.value.Some?
  {
    var e := Until(s, ParamStops);
    if e < |s| then Cut(s[..e], Some(s[e + 1..])) else NoProperty
  }

  /** The corrected parse_property: read_until(line, ":") and a split at
      the index it returns. */
  method ParsePropertyFixed(s: string) returns (r: Cut)
    ensures r == FixedCut(s)
  {
    var e := ReadUntil(s, ParamStops);
    if e < |s| {
      r := Cut(s[..e], Some(s[e + 1..]));
    } else {
      r := NoProperty;
    }
  }

  /** The corrected split gives back the line: the name holds no ':'
      outside quotes and closes its quotes, and name ":" value is the line;
      it finds nothing exactly when no ':' stands outside quotes. */
  lemma FixedCutRebuilds(s: string)
    ensures FixedCut(s).NoProperty? <==> NoStop(s, ParamStops)
    ensures FixedCut(s).Cut? ==>
      Plain(FixedCut(s).name, ParamStops) && s == FixedCut(s).name + ":" + FixedCut(s).value.value
  {
    UntilEnd(s, ParamStops);
    var e := Until(s, ParamStops);
    UntilFirst(s, ParamStops);
    if e < |s| {
      BeforeStopPlain(s, ParamStops, e);
      SplitAt(s, e);
    }
  }

  /** The line N;P="a:b":v shows the difference. As written, the name is
      cut just after the first quote and the 'a' after it is lost. */
  lemma LegacyQuoteCut()
    ensures LegacyCut("N;P=\"a:b\":v") == Cut("N;P=\"", Some(":b\":v"))
  {
    var s := "N;P=\"a:b\":v";
    assert MarkFrom(s, 4) == 4;
    assert MarkFrom(s, 0) == 4;
    assert s[..5] == "N;P=\"" && s[6..] == ":b\":v";
  }

  /** The quote-aware split of the same line keeps the quoted colon in
      the name. */
  lemma FixedQuoteCut()
    ensures FixedCut("N;P=\"a:b\":v") == Cut("N;P=\"a:b\"", Some("v"))
  {
    var s := "N;P=\"a:b\":v";
    PlainText("N;P=", ParamStops);
    PlainQuoted("a:b", ParamStops);
    assert "\"" + "a:b" + "\"" == "\"a:b\"";
    PlainJoin("N;P=", "\"a:b\"", ParamStops);
    var name := "N;P=" + "\"a:b\"";
    assert name == "N;P=\"a:b\"";
    assert s == name + ":v";
    UntilAppend(name, ":v", ParamStops);
    UntilAt(":v", ParamStops, 0);
    assert Until(s, ParamStops) == |name|;
    assert s[..|name|] == name && s[|name| + 1..] == "v";
  }

  // ---------------------------------------------------------------------
  // The stack of cical.c

  /** MAX_STACK_SIZE of cical.c. */
  const LegacyStackSize := 100

  /** struct stack of cical.c: 100 slots and the index of the topmost. */
  class LegacyStack<T(0)> {
    var buf: array<T>
    var top: int

    ghost predicate Valid()
      reads this
    {
      buf.Length == LegacyStackSize && -1 <= top < LegacyStackSize
    }

    /** The elements on the stack, bottom first. */
    ghost function Elements(): seq<T>
      reads this, buf
      requires Valid()
    {
      buf[..top + 1]
    }

    /** init_stack: top = -1. */
    constructor ()
      ensures Valid() && fresh(buf)
      ensures top == -1 && Elements() == []
    {
      buf := new T[LegacyStackSize];
      top := -1;
    }
  }

  /** stack_push: stores x at ++top; a null stack is left alone. The
      bound is not checked. */
  method LegacyPush<T(0)>(s: LegacyStack?<T>, x: T)
    requires s != null ==> s.Valid() && s.top < LegacyStackSize - 1
    modifies if s == null then {} else {s, s.buf}
    ensures s != null ==> s.Valid() && s.buf == old(s.buf) && s.top == old(s.top) + 1
    ensures s != null ==> s.Elements() == old(s.Elements()) + [x]
  {
    if s != null {
      s.top := s.top + 1;
      s.buf[s.top] := x;
    }
  }

  /** stack_pop: returns buf[top--]; null for a null stack. The empty
      stack is not checked for. */
  method LegacyPop<T(0)>(s: LegacyStack?<T>) returns (x: Option<T>)
    requires s != null ==> s.Valid() && s.top >= 0
    modifies s
    ensures s == null ==> x == None
    ensures s != null ==> s.Valid() && s.buf == old(s.buf) && s.top == old(s.top) - 1
    ensures s != null ==> x == Some(old(s.Elements())[|old(s.Elements())| - 1])
    ensures s != null ==> s.Elements() == old(s.Elements())[..|old(s.Elements())| - 1]
  {
    if s == null {
      x := None;
    } else {
      x := Some(s.buf[s.top]);
      s.top := s.top - 1;
    }
  }

  /** stack_top: buf[top] without popping; null for a null stack. */
  method LegacyTop<T(0)>(s: LegacyStack?<T>) returns (x: Option<T>)
    requires s != null ==> s.Valid() && s.top >= 0
    ensures s == null ==> x == None
    ensures s != null ==> x == Some(s.Elements()[|s.Elements()| - 1])
  {
    if s == null {
      x := None;
    } else {
      x := Some(s.buf[s.top]);
    }
  }

  /** stack_empty: true exactly for a non-null stack with top < 0. */
  method LegacyEmpty<T(0)>(s: LegacyStack?<T>) returns (b: bool)
    requires s != null ==> s.Valid()
    ensures b <==> s != null && s.Elements() == []
  {
    b := s != null && s.top < 0;
  }

  // ---------------------------------------------------------------------
  // The loop of main

  /** The size of the comps array of main. */
  const CompsSize := 256

  /** The pointer `top` of main: never assigned yet (it is declared
      without a value), null, or pointing at a component. */
  datatype Top = Unset | Null | Points(comp: Comp)

  /** What the loop of main keeps: the stack's elements, `top`, the comps
      array up to comps_index, and the (component, line) pairs handed to
      parse_property so far. */
  datatype Loop = Loop(stack: seq<Comp>, top: Top, comps: seq<Comp>, handed: seq<(Comp, string)>)

  /** A line starting with BEGIN:, and one starting with END: but not
      BEGIN:, as the two strncmp tests of main take them in turn. */
  predicate IsBegin(line: string) { StartsWith(line, "BEGIN:") }
  predicate IsEnd(line: string) { !StartsWith(line, "BEGIN:") && StartsWith(line, "END:") }

  /** One line of the loop; None when the line would push onto a full
      stack, pop an empty one, write past the comps array, or test `top`
      before it was ever assigned. */
  function Step(st: Loop, id: nat, line: string): (r: Option<Loop>)
    ensures r.Some? && IsBegin(line) ==> r.value.top == Points(Comp(id, Unknown))
    ensures r.Some? && IsEnd(line) ==> r.value.top == Null
    ensures r.Some? && !IsBegin(line) && !IsEnd(line) ==>
      r.value.stack == st.stack && r.value.comps == st.comps && r.value.top == st.top
  {
    if IsBegin(line) then
      if |st.stack| < LegacyStackSize then
        var c := Comp(id, FindCompType(line[6..]));
        Some(st.(stack := st.stack + [c], top := Points(c)))
      else None
    else if IsEnd(line) then
      if st.stack != [] && |st.comps| < CompsSize then
        Some(Loop(st.stack[..|st.stack| - 1], Null, st.comps + [st.stack[|st.stack| - 1]], st.handed))
      else None
    else
      match st.top
      case Unset => None
      case Null => Some(st)
      case Points(c) => Some(st.(handed := st.handed + [(c, line)]))
  }

  /** The state of the loop after the first n lines, None once a line
      went out of bounds. */
  function Run(lines: seq<string>, n: nat): Option<Loop>
    requires n <= |lines|
  {
    if n == 0 then Some(Loop([], Unset, [], []))
    else
      var prev := Run(lines, n - 1);
      if prev.None? then None else Step(prev.value, n - 1, lines[n - 1])
  }

  /** The index of the first empty line, where reader_getline returns 0
      and the loop ends, or |lines|. */
  function FirstEmpty(lines: seq<string>): (k: nat)
    ensures k <= |lines|
    ensures k < |lines| ==> |lines[k]| == 0
    ensures forall j :: 0 <= j < k ==> |lines[j]| != 0
  {
    if lines == [] || |lines[0]| == 0 then 0 else 1 + FirstEmpty(lines[1..])
  }

  /** A prefix of a run that stays in bounds stays in bounds. */
  lemma {:induction false} RunPrefix(lines: seq<string>, m: nat, n: nat)
    requires m <= n <= |lines| && Run(lines, n).Some?
    ensures Run(lines, m).Some?
    decreases n - m
  {
    if m < n {
      RunPrefix(lines, m, n - 1);
    }
  }

  /** A BEGIN: line with room on the stack pushes a new component of
      unknown type and points `top` at it. */
  lemma StepBegin(st: Loop, id: nat, line: string)
    requires IsBegin(line) && |st.stack| < LegacyStackSize
    ensures Step(st, id, line) == Some(st.(stack := st.stack + [Comp(id, Unknown)], top := Points(Comp(id, Unknown))))
  {
  }

  /** An END: line with a component on the stack and room in comps moves
      the topmost component to the end of comps and sets `top` to null. */
  lemma StepEnd(st: Loop, id: nat, line: string)
    requires IsEnd(line) && st.stack != [] && |st.comps| < CompsSize
    ensures Step(st, id, line) ==
      Some(Loop(st.stack[..|st.stack| - 1], Null, st.comps + [st.stack[|st.stack| - 1]], st.handed))
  {
  }

  /** Any other line is handed to parse_property with the component `top`
      points at, and is dropped when `top` is null. */
  lemma StepText(st: Loop, id: nat, line: string)
    requires !IsBegin(line) && !IsEnd(line) && !st.top.Unset?
    ensures st.top.Points? ==> Step(st, id, line) == Some(st.(handed := st.handed + [(st.top.comp, line)]))
    ensures st.top.Null? ==> Step(st, id, line) == Some(st)
  {
  }

  /** What a step that stays in bounds needs of its state. */
  lemma StepBounds(st: Loop, id: nat, line: string)
    requires Step(st, id, line).Some?
    ensures IsBegin(line) ==> |st.stack| < LegacyStackSize
    ensures IsEnd(line) ==> st.stack != [] && |st.comps| < CompsSize
    ensures !IsBegin(line) && !IsEnd(line) ==> !st.top.Unset?
  {
  }

  /** One more line of a run in bounds is one more Step. */
  lemma RunStep(lines: seq<string>, n: nat)
    requires n < |lines| && Run(lines, n).Some?
    ensures Run(lines, n + 1) == Step(Run(lines, n).value, n, lines[n])
  {
  }

  /** One pass of the loop of main over one line, on the stack s, the
      comps array arr filled up to ci, the pointer top and the lines
      handed to parse_property so far: the new state is the one Step
      gives. */
  method Feed(s: LegacyStack<Comp>, arr: array<Comp>, ci: nat, top: Top, handed: seq<(Comp, string)>, id: nat, line: string)
      returns (ci': nat, top': Top, handed': seq<(Comp, string)>)
    requires s.Valid() && arr.Length == CompsSize && arr != s.buf && ci <= CompsSize
    requires Step(Loop(s.Elements(), top, arr[..ci], handed), id, line).Some?
    modifies s, s.buf, arr
    ensures s.Valid() && s.buf == old(s.buf) && ci' <= CompsSize
    ensures Step(Loop(old(s.Elements()), top, old(arr[..ci]), handed), id, line) ==
      Some(Loop(s.Elements(), top', arr[..ci'], handed'))
  {
    ghost var st := Loop(s.Elements(), top, arr[..ci], handed);
    StepBounds(st, id, line);
    ci', top', handed' := ci, top, handed;
    if StartsWith(line, "BEGIN:") {
      StepBegin(st, id, line);
      var c := Comp(id, FindCompType(line[6..]));
      top' := Points(c);
      LegacyPush(s, c);
    } else if StartsWith(line, "END:") {
      StepEnd(st, id, line);
      var x := LegacyPop(s);
      arr[ci] := x.value;
      assert arr[..ci + 1] == st.comps + [x.value];
      ci' := ci + 1;
      top' := Null;
    } else {
      StepText(st, id, line);
      if top.Points? {
        handed' := handed + [(top.comp, line)];
      }
    }
  }

  /** The loop of main over the logical lines the reader yields: a BEGIN:
      line pushes a new component and makes it `top`, an END: line pops
      the stack into comps[comps_index++] and sets `top` to null, any
      other line goes to parse_property when `top` is set. The comps
      array and the pairs handed to parse_property are as Run says. */
  method MainLoop(lines: seq<string>) returns (comps: seq<Comp>, handed: seq<(Comp, string)>)
    requires Run(lines, FirstEmpty(lines)).Some?
    ensures comps == Run(lines, FirstEmpty(lines)).value.comps
    ensures handed == Run(lines, FirstEmpty(lines)).value.handed
  {
    var s := new LegacyStack<Comp>();
    var arr := new Comp[CompsSize](_ => Comp(0, Unknown));
    var ci: nat := 0;
    var top := Unset;
    handed := [];
    var i := 0;
    while i < |lines| && |lines[i]| != 0
      invariant i <= FirstEmpty(lines) && Run(lines, i).Some?
      invariant s.Valid() && fresh(s.buf) && arr.Length == CompsSize && arr != s.buf && ci <= CompsSize
      invariant Run(lines, i).value == Loop(s.Elements(), top, arr[..ci], handed)
      decreases |lines| - i
    {
      RunPrefix(lines, i + 1, FirstEmpty(lines));
      RunStep(lines, i);
      ci, top, handed := Feed(s, arr, ci, top, handed, i, lines[i]);
      i := i + 1;
    }
    assert i == FirstEmpty(lines);
    comps := arr[..ci];
  }

  /** Every component on the stack or in comps was made by a BEGIN: line
      before the n-th and has the type find_comp_type gave it, UNKNOWN. */
  lemma {:induction false} RunComps(lines: seq<string>, n: nat)
    requires n <= |lines| && Run(lines, n).Some?
    ensures forall c :: c in Run(lines, n).value.stack + Run(lines, n).value.comps ==>
      c.line < n && IsBegin(lines[c.line]) && c.ctype == Unknown
  {
    if n > 0 {
      RunComps(lines, n - 1);
      var st := Run(lines, n - 1).value;
      if IsEnd(lines[n - 1]) {
        assert st.stack == st.stack[..|st.stack| - 1] + [st.stack[|st.stack| - 1]];
      }
    }
  }

  /** `top` points at the component on top of the stack whenever it
      points anywhere, and it is unset only while no BEGIN: or END: line
      has been read. */
  lemma {:induction false} RunTop(lines: seq<string>, n: nat)
    requires n <= |lines| && Run(lines, n).Some?
    ensures var st := Run(lines, n).value;
      st.top.Points? ==> st.stack != [] && st.top.comp == st.stack[|st.stack| - 1]
    ensures Run(lines, n).value.top.Unset? ==>
      forall j :: 0 <= j < n ==> !IsBegin(lines[j]) && !IsEnd(lines[j])
  {
    if n > 0 {
      RunTop(lines, n - 1);
    }
  }

  /** Number of BEGIN: lines and of END: lines among the first n. */
  function Begins(lines: seq<string>, n: nat): nat
    requires n <= |lines|
  {
    if n == 0 then 0 else Begins(lines, n - 1) + (if IsBegin(lines[n - 1]) then 1 else 0)
  }

  function Ends(lines: seq<string>, n: nat): nat
    requires n <= |lines|
  {
    if n == 0 then 0 else Ends(lines, n - 1) + (if IsEnd(lines[n - 1]) then 1 else 0)
  }

  /** The stack holds one component per BEGIN: not yet matched by an END:,
      and comps one per END:. */
  lemma {:induction false} RunCounts(lines: seq<string>, n: nat)
    requires n <= |lines| && Run(lines, n).Some?
    ensures Ends(lines, n) <= Begins(lines, n)
    ensures |Run(lines, n).value.stack| == Begins(lines, n) - Ends(lines, n)
    ensures |Run(lines, n).value.comps| == Ends(lines, n)
  {
    if n > 0 {
      RunCounts(lines, n - 1);
    }
  }

  /** After an END: line no line is handed to parse_property until the
      next BEGIN: line. */
  lemma {:induction false} IgnoredAfterEnd(lines: seq<string>, k: nat, m: nat)
    requires k < m <= |lines| && Run(lines, m).Some?
    requires IsEnd(lines[k])
    requires forall j :: k < j < m ==> !IsBegin(lines[j])
    ensures Run(lines, k + 1).Some? && Run(lines, m).value.handed == Run(lines, k + 1).value.handed
    ensures Run(lines, m).value.top == Null
    decreases m - k
  {
    RunPrefix(lines, m - 1, m);
    if m > k + 1 {
      IgnoredAfterEnd(lines, k, m - 1);
    }
  }

  /** A calendar with one event. */
  const Example: seq<string> :=
    ["BEGIN:VCALENDAR", "BEGIN:VEVENT", "UID:1", "END:VEVENT", "VERSION:2.0", "END:VCALENDAR"]

  /** How main classifies each line of Example. */
  lemma ExampleLines()
    ensures |Example| == 6 && IsBegin(Example[0]) && IsBegin(Example[1])
    ensures !IsBegin(Example[2]) && !IsEnd(Example[2]) && IsEnd(Example[3])
    ensures !IsBegin(Example[4]) && !IsEnd(Example[4]) && IsEnd(Example[5])
  {
    assert Example[0][..6] == "BEGIN:" && Example[1][..6] == "BEGIN:";
    assert Example[3][..4] == "END:" && Example[3][0] == 'E';
    assert Example[5][..4] == "END:" && Example[5][0] == 'E';
    assert Example[2][0] == 'U' && Example[4][0] == 'V';
  }

  /** The first three lines of Example open the calendar and the event and
      hand UID:1 to parse_property with the event. */
  lemma ExampleOpens()
    ensures Run(Example, 3) == Some(Loop([Comp(0, Unknown), Comp(1, Unknown)], Points(Comp(1, Unknown)), [], [(Comp(1, Unknown), "UID:1")]))
  {
    ExampleLines();
    var c0 := Comp(0, Unknown);
    var c1 := Comp(1, Unknown);
    var l0 := Loop([], Unset, [], []);
    var l1 := Loop([c0], Points(c0), [], []);
    var l2 := Loop([c0, c1], Points(c1), [], []);
    assert Run(Example, 1) == Some(l1) by {
      assert [] + [c0] == [c0];
      RunStep(Example, 0);
      StepBegin(l0, 0, Example[0]);
    }
    assert Run(Example, 2) == Some(l2) by {
      assert [c0] + [c1] == [c0, c1];
      RunStep(Example, 1);
      StepBegin(l1, 1, Example[1]);
    }
    assert [] + [(c1, "UID:1")] == [(c1, "UID:1")];
    RunStep(Example, 2);
    StepText(l2, 2, Example[2]);
  }

  /** The event is closed first, so comps lists it before the calendar,
      and VERSION:2.0, read after its END:, is not handed to
      parse_property. */
  lemma ClosingOrder()
    ensures Run(Example, 6) == Some(Loop([], Null, [Comp(1, Unknown), Comp(0, Unknown)], [(Comp(1, Unknown), "UID:1")]))
  {
    ExampleLines();
    ExampleOpens();
    var c0 := Comp(0, Unknown);
    var c1 := Comp(1, Unknown);
    var h := [(c1, "UID:1")];
    var l3 := Loop([c0, c1], Points(c1), [], h);
    var l4 := Loop([c0], Null, [c1], h);
    assert Run(Example, 4) == Some(l4) by {
      assert [c0, c1][..1] == [c0] && [] + [c1] == [c1];
      RunStep(Example, 3);
      StepEnd(l3, 3, Example[3]);
    }
    assert Run(Example, 5) == Some(l4) by {
      RunStep(Example, 4);
      StepText(l4, 4, Example[4]);
    }
    assert [c0][..0] == [] && [c1] + [c0] == [c1, c0];
    RunStep(Example, 5);
    StepEnd(l4, 5, Example[5]);
  }
}
