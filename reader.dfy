/** The line reader of src/cical_reader.c. It turns the physical lines of a
    stream into logical lines: a physical line followed by a whitespace
    character is continued by the next physical line, the terminator and the
    whitespace character being dropped.

    The FILE* is an in-memory stream: the characters not read yet (`rest`)
    and the end-of-file flag. The reader's buffer r->buf is modelled by the
    C string it holds (the characters before its NUL); `ptr` is an index
    into it. */
module CicalReader {
  import opened Util

  /** BUF_SIZE of include/cical_reader.h: the size of r->buf. */
  const BufSize := 8192

  /** The characters at which endline stops. */
  predicate IsTerminator(c: char) {
    c == '\r' || c == '\n' || c == '\0'
  }

  /** No line terminator and no NUL anywhere in s. */
  predicate Clean(s: string) {
    forall j :: 0 <= j < |s| ==> !IsTerminator(s[j])
  }

  /** The index of the first '\r', '\n' or NUL of s, or |s|. */
  function LineEnd(s: string): (k: nat)
    ensures k <= |s|
    ensures k < |s| ==> IsTerminator(s[k])
    ensures Clean(s[..k])
  {
    if s == [] || IsTerminator(s[0]) then 0 else 1 + LineEnd(s[1..])
  }

  /** The three properties of LineEnd single out one index. */
  lemma {:induction false} LineEndAt(s: string, k: nat)
    requires k <= |s|
    requires k < |s| ==> IsTerminator(s[k])
    requires Clean(s[..k])
    ensures LineEnd(s) == k
  {
    if k > 0 {
      assert s[..k][0] == s[0];
      var t := s[1..];
      var u := t[..k - 1];
      forall j | 0 <= j < |u|
        ensures !IsTerminator(u[j])
      {
        assert u[j] == s[..k][j + 1];
      }
      LineEndAt(t, k - 1);
    }
  }

  /** endline: advances from `start` to the first '\r', '\n' or NUL. */
  method EndLine(s: string, start: nat) returns (k: nat)
    requires start <= |s|
    ensures k == start + LineEnd(s[start..])
  {
    k := start;
    while k < |s| && !IsTerminator(s[k])
      invariant start <= k <= |s|
      invariant forall j :: start <= j < k ==> !IsTerminator(s[j])
    {
      k := k + 1;
    }
    var t := s[start..];
    var u := t[..k - start];
    forall j | 0 <= j < |u|
      ensures !IsTerminator(u[j])
    {
      assert u[j] == s[start + j];
    }
    LineEndAt(t, k - start);
  }

  /** The state a reader and its stream are in: the unread input, the
      stream's end-of-file flag, r->lines and the string held in r->buf. */
  datatype ReaderState = ReaderState(rest: string, eof: bool, lines: int, buf: string)

  /** What every reachable state satisfies. */
  predicate Good(st: ReaderState) {
    (st.eof ==> st.rest == []) && |st.buf| < BufSize
  }

  /** Decreases with every logical line read before the end of the stream. */
  function Measure(st: ReaderState): nat {
    2 * |st.rest| + (if st.eof then 0 else 1)
  }

  /** The number of characters fgets takes from `rest` when it may store
      `limit` of them: up to and including the first newline. */
  function FgetsCount(rest: string, limit: nat): (k: nat)
    ensures k <= limit && k <= |rest|
    ensures forall j :: 0 <= j < k - 1 ==> rest[j] != '\n'
    ensures k < limit && k < |rest| ==> k > 0 && rest[k - 1] == '\n'
  {
    if limit == 0 || rest == [] then 0
    else if rest[0] == '\n' then 1
    else 1 + FgetsCount(rest[1..], limit - 1)
  }

  /** fgets(r->buf + ptr, size, in): reads at most size - 1 characters,
      stopping after a newline, and stores them at ptr followed by a NUL. It
      returns null, leaving the buffer alone, when size is not positive or
      when it met the end of the input before storing anything; a size of 1
      stores just the NUL. The end-of-file flag is set when the input ran
      out before a newline or the limit was reached. */
  function FgetsSpec(st: ReaderState, ptr: nat, size: int): (r: (bool, ReaderState))
    requires ptr <= |st.buf|
    ensures r.1.lines == st.lines && |r.1.rest| <= |st.rest|
    ensures !r.0 ==> r.1.buf == st.buf && r.1.rest == st.rest
    ensures !r.0 && size > 0 ==> st.rest == [] && r.1.eof
    ensures r.0 ==> ptr <= |r.1.buf| && r.1.buf[..ptr] == st.buf[..ptr]
    ensures r.0 && size > 1 ==> |r.1.rest| < |st.rest|
    ensures r.1.eof ==> st.eof || r.1.rest == []
  {
    if size <= 0 then (false, st)
    else
      var limit := size - 1;
      var k := FgetsCount(st.rest, limit);
      var hitEnd := k < limit && k == |st.rest| && (k == 0 || st.rest[k - 1] != '\n');
      if limit > 0 && st.rest == [] then (false, st.(eof := true))
      else (true, st.(rest := st.rest[k..], eof := st.eof || hitEnd, buf := st.buf[..ptr] + st.rest[..k]))
  }

  /** What follows a physical line that fgets stored at ptr (the line being
      counted already): fgetc gives EOF, which ends the loop; a character
      that is not whitespace is pushed back with ungetc, which clears the
      end-of-file flag, and ends the loop; whitespace is consumed and the
      next fgets goes at the terminator of what was just stored. */
  function Peek(st: ReaderState, ptr: nat): (r: (bool, ReaderState, nat))
    requires ptr <= |st.buf| && (st.eof ==> st.rest == [])
    ensures r.1.lines == st.lines && |r.1.rest| <= |st.rest|
    ensures ptr <= r.2 <= |r.1.buf| == |st.buf|
    ensures r.0 ==> r.1.buf == st.buf && r.2 == ptr
    ensures !r.0 ==> |r.1.rest| < |st.rest| && r.1.eof == st.eof
    ensures r.1.eof ==> r.1.rest == []
  {
    if st.rest == [] then (true, st.(eof := true), ptr)
    else if !IsSpace(st.rest[0]) then (true, st.(eof := false), ptr)
    else (false, st.(rest := st.rest[1..]), ptr + LineEnd(st.buf[ptr..]))
  }

  /** One pass of the while loop of reader_getline from a state where fgets
      writes at ptr into a buffer of n characters. Gives whether the loop
      breaks, the new state and the new ptr. */
  function LoopStep(st: ReaderState, ptr: nat, n: nat): (r: (bool, ReaderState, nat))
    requires !st.eof && ptr <= |st.buf| < n
    ensures |r.1.rest| <= |st.rest| && (r.1.eof ==> r.1.rest == [])
    ensures ptr <= r.2 <= |r.1.buf| < n
    ensures !r.0 ==> !r.1.eof && |r.1.rest| < |st.rest|
    ensures ptr + 1 < n ==> |r.1.rest| < |st.rest| || r.1.eof
  {
    var f := FgetsSpec(st, ptr, n - ptr);
    if !f.0 then (true, f.1, ptr)
    else Peek(f.1.(lines := f.1.lines + 1), ptr)
  }

  /** The whole while loop of reader_getline: passes until one breaks.
      Gives the state after the loop and the final ptr. */
  function GetLineLoop(st: ReaderState, ptr: nat, n: nat): (r: (ReaderState, nat))
    requires !st.eof && ptr <= |st.buf| < n
    decreases |st.rest|
    ensures |r.0.rest| <= |st.rest| && (r.0.eof ==> r.0.rest == [])
    ensures ptr <= r.1 <= |r.0.buf| < n
    ensures ptr + 1 < n ==> |r.0.rest| < |st.rest| || r.0.eof
  {
    var s := LoopStep(st, ptr, n);
    if s.0 then (s.1, s.2) else GetLineLoop(s.1, s.2, n)
  }

  /** The end of reader_getline after its loop: the string is cut at the
      terminator of its last segment, which starts at ptr. */
  function Cut(st: ReaderState, ptr: nat): (r: (string, ReaderState))
    requires ptr <= |st.buf|
    ensures r.1 == st.(buf := r.0) && |r.0| <= |st.buf|
  {
    var line := st.buf[..ptr + LineEnd(st.buf[ptr..])];
    (line, st.(buf := line))
  }

  /** reader_getline on a non-null reader: nothing when the stream is at end
      of file; otherwise the loop, then the cut; the result is what is copied
      out. The line fits the caller's buffer with its NUL, and before the end
      of the stream every call makes progress. */
  function NextLine(st: ReaderState, n: nat): (r: (string, ReaderState))
    requires Good(st) && 2 <= n <= BufSize && |st.buf| < n
    ensures |r.0| < n && Good(r.1) && |r.1.rest| <= |st.rest|
    ensures st.eof ==> r == ("", st)
    ensures !st.eof ==> r.1.buf == r.0 && Measure(r.1) < Measure(st)
  {
    if st.eof then ("", st)
    else
      var loop := GetLineLoop(st, 0, n);
      Cut(loop.0, loop.1)
  }

  /** All the logical lines a reader in state st yields before its stream is
      at end of file (an empty one among them included). */
  function Lines(st: ReaderState): (ls: seq<string>)
    requires Good(st)
    decreases Measure(st)
  {
    if st.eof then []
    else
      var next := NextLine(st, BufSize);
      [next.0] + Lines(next.1)
  }

  /** Before the end of the stream, reading one line leaves the others. */
  lemma LinesStep(st: ReaderState)
    requires Good(st) && !st.eof
    ensures Lines(NextLine(st, BufSize).1) == Lines(st)[1..]
  {
  }

  /** Before the end of the stream, the logical lines are the one read
      next followed by those of the state it leaves. */
  lemma LinesCons(st: ReaderState)
    requires Good(st) && !st.eof
    ensures Lines(st) == [NextLine(st, BufSize).0] + Lines(NextLine(st, BufSize).1)
  {
  }

  /** The reader with its stream. */
  class Reader {
    var rest: string
    var eof: bool
    var lines: int
    var buf: string

    ghost function State(): ReaderState
      reads this
    {
      ReaderState(rest, eof, lines, buf)
    }

    ghost predicate Valid()
      reads this
    {
      Good(State())
    }

    /** reader_create: a reader at the start of the stream, no line read.
        r->buf is left uninitialised by the source; here it starts empty. */
    constructor (contents: string)
      ensures Valid() && State() == ReaderState(contents, false, 0, "")
    {
      rest := contents;
      eof := false;
      lines := 0;
      buf := "";
    }

    /** fgets(r->buf + ptr, size, r->in). */
    method Fgets(ptr: nat, size: int) returns (got: bool)
      requires ptr <= |buf|
      modifies this
      ensures (got, State()) == FgetsSpec(old(State()), ptr, size)
    {
      if size <= 0 {
        return false;
      }
      var limit := size - 1;
      if limit > 0 && rest == [] {
        eof := true;
        return false;
      }
      var k := FgetsCount(rest, limit);
      var hitEnd := k < limit && k == |rest| && (k == 0 || rest[k - 1] != '\n');
      buf := buf[..ptr] + rest[..k];
      rest := rest[k..];
      eof := eof || hitEnd;
      got := true;
    }

    /** fgetc(r->in): the next character, or EOF (None) at the end, which
        sets the end-of-file flag. */
    method Fgetc() returns (ch: Option<char>)
      modifies this
      ensures old(rest) == [] ==> ch == None && rest == [] && eof
      ensures old(rest) != [] ==> ch == Some(old(rest)[0]) && rest == old(rest)[1..] && eof == old(eof)
      ensures lines == old(lines) && buf == old(buf)
    {
      if rest == [] {
        ch := None;
        eof := true;
      } else {
        ch := Some(rest[0]);
        rest := rest[1..];
      }
    }

    /** ungetc(ch, r->in): ch is read again next; the end-of-file flag is
        cleared. */
    method Ungetc(ch: char)
      modifies this
      ensures rest == [ch] + old(rest) && !eof
      ensures lines == old(lines) && buf == old(buf)
    {
      rest := [ch] + rest;
      eof := false;
    }
  }

  /** One pass of the while loop of reader_getline on the reader. */
  method GetLineStep(r: Reader, ptr: nat, n: nat) returns (done: bool, next: nat)
    requires !r.eof && ptr <= |r.buf| < n
    modifies r
    ensures (done, r.State(), next) == LoopStep(old(r.State()), ptr, n)
  {
    var got := r.Fgets(ptr, n - ptr);
    if !got {
      return true, ptr;
    }
    r.lines := r.lines + 1;
    ghost var counted := r.State();
    var ch := r.Fgetc();
    if ch.None? {
      return true, ptr;
    }
    if !IsSpace(ch.value) {
      r.Ungetc(ch.value);
      assert r.rest == counted.rest;
      return true, ptr;
    }
    next := EndLine(r.buf, ptr);
    done := false;
  }

  /** The while loop of reader_getline, from ptr = r->buf. */
  method GetLineRun(r: Reader, n: nat) returns (ptr: nat)
    requires !r.eof && |r.buf| < n
    modifies r
    ensures (r.State(), ptr) == GetLineLoop(old(r.State()), 0, n)
  {
    ptr := 0;
    while true
      invariant !r.eof && ptr <= |r.buf| < n
      invariant GetLineLoop(old(r.State()), 0, n) == GetLineLoop(r.State(), ptr, n)
      decreases |r.rest|
    {
      ghost var before, ptr0 := r.State(), ptr;
      var done;
      done, ptr := GetLineStep(r, ptr, n);
      if done {
        assert GetLineLoop(before, ptr0, n) == (r.State(), ptr);
        break;
      }
      assert GetLineLoop(before, ptr0, n) == GetLineLoop(r.State(), ptr, n);
    }
  }

  /** The cut: *endline(ptr) = '\0'. */
  method CutLine(r: Reader, ptr: nat) returns (line: string)
    requires ptr <= |r.buf|
    modifies r
    ensures (line, r.State()) == Cut(old(r.State()), ptr)
  {
    var e := EndLine(r.buf, ptr);
    r.buf := r.buf[..e];
    line := r.buf;
  }

  /** reader_getline(n, buf, r): the logical line copied into the caller's
      buffer and its length. A null reader or a stream already at end of
      file gives 0 and changes nothing (the caller's buffer is then left as
      it was; `line` is empty). */
  method ReaderGetline(n: nat, r: Reader?) returns (len: nat, line: string)
    requires r != null ==> r.Valid() && 2 <= n <= BufSize && |r.buf| < n
    modifies r
    ensures len == |line|
    ensures r == null ==> len == 0 && line == ""
    ensures r != null ==> r.Valid() && (line, r.State()) == NextLine(old(r.State()), n)
  {
    if r == null || r.eof {
      return 0, "";
    }
    var ptr := GetLineRun(r, n);
    line := CutLine(r, ptr);
    len := |line|;
  }

  /** A clean prefix followed by a clean segment is clean. */
  lemma CleanJoin(b: string, p: nat, k: nat)
    requires p + k <= |b| && Clean(b[..p]) && Clean(b[p..][..k])
    ensures Clean(b[..p + k])
  {
    var u := b[..p + k];
    forall j | 0 <= j < |u|
      ensures !IsTerminator(u[j])
    {
      if j < p {
        assert u[j] == b[..p][j];
      } else {
        assert u[j] == b[p..][..k][j - p];
      }
    }
  }

  /** The loop never puts a terminator before ptr: what it stores is cut at
      each segment's own terminator. */
  lemma {:induction false} LoopKeepsClean(st: ReaderState, ptr: nat, n: nat)
    requires !st.eof && ptr <= |st.buf| < n
    requires Clean(st.buf[..ptr])
    ensures Clean(GetLineLoop(st, ptr, n).0.buf[..GetLineLoop(st, ptr, n).1])
    decreases |st.rest|
  {
    var s := LoopStep(st, ptr, n);
    if !s.0 {
      var f := FgetsSpec(st, ptr, n - ptr);
      var b := s.1.buf;
      assert b == f.1.buf && b[..ptr] == st.buf[..ptr];
      var k := LineEnd(b[ptr..]);
      assert s.2 == ptr + k;
      CleanJoin(b, ptr, k);
      LoopKeepsClean(s.1, s.2, n);
    }
  }

  /** reader_getline's line holds no CR, LF or NUL. */
  lemma NextLineClean(st: ReaderState, n: nat)
    requires Good(st) && 2 <= n <= BufSize && |st.buf| < n
    ensures Clean(NextLine(st, n).0)
  {
    if !st.eof {
      var loop := GetLineLoop(st, 0, n);
      LoopKeepsClean(st, 0, n);
      var k := LineEnd(loop.0.buf[loop.1..]);
      CleanJoin(loop.0.buf, loop.1, k);
      assert NextLine(st, n).0 == loop.0.buf[..loop.1 + k];
    }
  }

  /** A logical line folded into physical lines: each chunk ends with CRLF
      and every chunk after the first starts with its fold character (a
      space or a tab in section 3.1 of RFC 5545), marks[i] opening the
      physical line of chunks[i + 1]. */
  function Folded(chunks: seq<string>, marks: seq<char>): string
    requires |chunks| == |marks| + 1
    decreases |marks|
  {
    if marks == [] then chunks[0] + "\r\n"
    else chunks[0] + "\r\n" + [marks[0]] + Folded(chunks[1..], marks[1..])
  }

  /** The chunks joined back together. */
  function Concat(chunks: seq<string>): string {
    if chunks == [] then "" else chunks[0] + Concat(chunks[1..])
  }

  /** What a fold needs: clean chunks and whitespace fold characters. */
  predicate FoldOk(chunks: seq<string>, marks: seq<char>)
    decreases |marks|
  {
    |chunks| == |marks| + 1 && Clean(chunks[0]) &&
    (marks != [] ==> IsSpace(marks[0]) && FoldOk(chunks[1..], marks[1..]))
  }

  /** fgets stops right after the first newline when the buffer has room. */
  lemma {:induction false} FgetsCountLine(line: string, t: string, limit: nat)
    requires forall j :: 0 <= j < |line| ==> line[j] != '\n'
    requires |line| + 1 <= limit
    ensures FgetsCount(line + "\n" + t, limit) == |line| + 1
  {
    if line != [] {
      assert (line + "\n" + t)[1..] == line[1..] + "\n" + t;
      FgetsCountLine(line[1..], t, limit - 1);
    }
  }

  /** endline on a clean string followed by a terminator stops at it. */
  lemma LineEndPrefix(c: string, x: string)
    requires Clean(c) && x != [] && IsTerminator(x[0])
    ensures LineEnd(c + x) == |c|
  {
    assert (c + x)[..|c|] == c;
    LineEndAt(c + x, |c|);
  }

  /** fgets with room in the buffer stores a whole physical line "c\r\n". */
  lemma FgetsOverLine(st: ReaderState, ptr: nat, size: int, c: string, after: string)
    requires !st.eof && ptr <= |st.buf|
    requires Clean(c) && st.rest == c + "\r\n" + after
    requires |c| + 3 <= size
    ensures FgetsSpec(st, ptr, size) == (true, st.(rest := after, buf := st.buf[..ptr] + c + "\r\n"))
  {
    var rest := st.rest;
    assert rest == (c + "\r") + "\n" + after;
    FgetsCountLine(c + "\r", after, size - 1);
    var k := FgetsCount(rest, size - 1);
    assert k == |c| + 2 && rest[k - 1] == '\n';
    assert rest[..k] == c + "\r\n" && rest[k..] == after;
    var hitEnd := k < size - 1 && k == |rest| && (k == 0 || rest[k - 1] != '\n');
    assert !hitEnd;
    var f := FgetsSpec(st, ptr, size);
    assert f.0 && f.1.rest == after && !f.1.eof && f.1.buf == st.buf[..ptr] + c + "\r\n";
  }

  /** After a physical line "c\r\n" stored at ptr, the next character
      decides; a fold character makes the next fgets write over the CR. */
  lemma PeekAfterLine(st: ReaderState, ptr: nat, c: string)
    requires !st.eof && ptr <= |st.buf| && st.buf[ptr..] == c + "\r\n" && Clean(c)
    ensures Peek(st, ptr) ==
      if st.rest == [] then (true, st.(eof := true), ptr)
      else if !IsSpace(st.rest[0]) then (true, st, ptr)
      else (false, st.(rest := st.rest[1..]), ptr + |c|)
  {
    LineEndPrefix(c, "\r\n");
  }

  /** One pass of the loop over a physical line "c\r\n" with room in the
      buffer: it is stored at ptr and counted, then the character after it
      decides whether the loop goes on. */
  lemma StepOverLine(st: ReaderState, ptr: nat, n: nat, c: string, after: string)
    requires !st.eof && ptr <= |st.buf| < n
    requires Clean(c) && st.rest == c + "\r\n" + after
    requires ptr + |c| + 3 <= n
    ensures var r := LoopStep(st, ptr, n);
      var goesOn := after != [] && IsSpace(after[0]);
      r.0 == !goesOn &&
      r.1.rest == (if goesOn then after[1..] else after) &&
      r.1.eof == (after == []) &&
      r.1.lines == st.lines + 1 &&
      r.1.buf == st.buf[..ptr] + c + "\r\n" &&
      r.2 == (if goesOn then ptr + |c| else ptr)
  {
    FgetsOverLine(st, ptr, n - ptr, c, after);
    var s2 := st.(rest := after, lines := st.lines + 1, buf := st.buf[..ptr] + c + "\r\n");
    assert s2.buf[ptr..] == c + "\r\n";
    PeekAfterLine(s2, ptr, c);
  }

  /** A pass that does not break hands the loop on to the next pass. */
  lemma LoopGoesOn(st: ReaderState, ptr: nat, n: nat, st': ReaderState, ptr': nat)
    requires !st.eof && ptr <= |st.buf| < n
    requires !LoopStep(st, ptr, n).0 && LoopStep(st, ptr, n).1 == st' && LoopStep(st, ptr, n).2 == ptr'
    ensures !st'.eof && ptr' <= |st'.buf| < n
    ensures GetLineLoop(st, ptr, n) == GetLineLoop(st', ptr', n)
  {
  }

  /** What the loop over a folded line ends with: `tail` left unread,
      `count` more physical lines, and `text` in the buffer up to the
      terminator of the last segment. */
  predicate LoopGives(r: (ReaderState, nat), st: ReaderState, tail: string, count: nat, text: string) {
    r.1 <= |r.0.buf| &&
    r.0.rest == tail && r.0.eof == (tail == []) && r.0.lines == st.lines + count &&
    Cut(r.0, r.1).0 == text
  }

  /** A pass that goes on, then the rest of the loop: the pass's line is
      counted on top of what the rest gives. */
  lemma LoopGivesShift(st: ReaderState, ptr: nat, n: nat, st': ReaderState, ptr': nat, tail: string, count: nat, text: string, text': string)
    requires !st.eof && ptr <= |st.buf| < n && !st'.eof && ptr' <= |st'.buf| < n
    requires GetLineLoop(st, ptr, n) == GetLineLoop(st', ptr', n)
    requires count >= 1 && st'.lines == st.lines + 1 && text' == text
    requires LoopGives(GetLineLoop(st', ptr', n), st', tail, count - 1, text')
    ensures LoopGives(GetLineLoop(st, ptr, n), st, tail, count, text)
  {
  }

  /** A fold with more to come, split after its first fold character. */
  lemma FoldedSplit(chunks: seq<string>, marks: seq<char>, tail: string)
    requires |chunks| == |marks| + 1 && marks != []
    ensures Folded(chunks, marks) + tail == chunks[0] + "\r\n" + ([marks[0]] + (Folded(chunks[1..], marks[1..]) + tail))
  {
  }

  /** The chunks joined after a prefix, split after the first one. */
  lemma ConcatSplit(p: string, chunks: seq<string>)
    requires chunks != []
    ensures (p + chunks[0]) + Concat(chunks[1..]) == p + Concat(chunks)
    ensures |Concat(chunks)| == |chunks[0]| + |Concat(chunks[1..])|
  {
  }

  /** Keeping the part before and the part just written. */
  lemma KeepWritten(buf: string, ptr: nat, c: string, x: string)
    requires ptr <= |buf|
    ensures (buf[..ptr] + c + x)[..ptr + |c|] == buf[..ptr] + c
  {
  }

  /** The first physical line of a fold with more to come: the loop goes on
      from just after the fold character, in state st' at ptr', with the
      chunk in the buffer. */
  lemma FoldedFirst(st: ReaderState, ptr: nat, n: nat, chunks: seq<string>, marks: seq<char>, tail: string)
    returns (st': ReaderState, ptr': nat)
    requires !st.eof && ptr <= |st.buf| < n
    requires FoldOk(chunks, marks) && marks != []
    requires st.rest == Folded(chunks, marks) + tail
    requires ptr + |Concat(chunks)| + 3 <= n
    ensures !st'.eof && ptr' <= |st'.buf| < n
    ensures st'.rest == Folded(chunks[1..], marks[1..]) + tail && st'.lines == st.lines + 1
    ensures GetLineLoop(st, ptr, n) == GetLineLoop(st', ptr', n)
    ensures FoldOk(chunks[1..], marks[1..])
    ensures ptr' + |Concat(chunks[1..])| + 3 <= n
    ensures st'.buf[..ptr'] + Concat(chunks[1..]) == st.buf[..ptr] + Concat(chunks)
  {
    var c := chunks[0];
    st' := st.(rest := Folded(chunks[1..], marks[1..]) + tail, lines := st.lines + 1, buf := st.buf[..ptr] + c + "\r\n");
    ptr' := ptr + |c|;
    var after := [marks[0]] + (Folded(chunks[1..], marks[1..]) + tail);
    FoldedSplit(chunks, marks, tail);
    ConcatSplit(st.buf[..ptr], chunks);
    StepOverLine(st, ptr, n, c, after);
    assert after[0] == marks[0] && after[1..] == st'.rest;
    assert LoopStep(st, ptr, n).1 == st';
    LoopGoesOn(st, ptr, n, st', ptr');
    KeepWritten(st.buf, ptr, c, "\r\n");
  }

  /** The last physical line of a fold: the loop stops after it, the cut
      leaves the chunks joined. */
  lemma FoldedLast(st: ReaderState, ptr: nat, n: nat, c: string, tail: string)
    requires !st.eof && ptr <= |st.buf| < n
    requires Clean(c) && st.rest == c + "\r\n" + tail
    requires tail == [] || !IsSpace(tail[0])
    requires ptr + |c| + 3 <= n
    ensures LoopGives(GetLineLoop(st, ptr, n), st, tail, 1, st.buf[..ptr] + c)
  {
    StepOverLine(st, ptr, n, c, tail);
    var r := GetLineLoop(st, ptr, n);
    assert r.1 == ptr && r.0.buf == st.buf[..ptr] + c + "\r\n";
    assert r.0.buf[ptr..] == c + "\r\n";
    LineEndPrefix(c, "\r\n");
    KeepWritten(st.buf, ptr, c, "\r\n");
    assert Cut(r.0, r.1).0 == r.0.buf[..ptr + |c|];
    assert r.0.rest == tail && r.0.eof == (tail == []) && r.0.lines == st.lines + 1;
  }

  /** The loop over a whole folded line: the buffer ends up holding the
      chunks joined from ptr on, one line is counted per physical line, and
      the stream stops just after the last CRLF. */
  lemma {:induction false} LoopOverFolded(st: ReaderState, ptr: nat, n: nat, chunks: seq<string>, marks: seq<char>, tail: string)
    requires !st.eof && ptr <= |st.buf| < n
    requires FoldOk(chunks, marks)
    requires st.rest == Folded(chunks, marks) + tail
    requires tail == [] || !IsSpace(tail[0])
    requires ptr + |Concat(chunks)| + 3 <= n
    ensures LoopGives(GetLineLoop(st, ptr, n), st, tail, |chunks|, st.buf[..ptr] + Concat(chunks))
    decreases |marks|
  {
    if marks == [] {
      assert Concat(chunks) == chunks[0] && Clean(chunks[0]);
      FoldedLast(st, ptr, n, chunks[0], tail);
    } else {
      var st', p' := FoldedFirst(st, ptr, n, chunks, marks, tail);
      LoopOverFolded(st', p', n, chunks[1..], marks[1..], tail);
      LoopGivesShift(st, ptr, n, st', p', tail, |chunks|, st.buf[..ptr] + Concat(chunks), st'.buf[..p'] + Concat(chunks[1..]));
    }
  }

  /** The loop's outcome read back through the cut. */
  lemma NextLineFromLoop(st: ReaderState, n: nat, count: nat, tail: string, text: string)
    requires Good(st) && !st.eof && 2 <= n <= BufSize && |st.buf| < n
    requires LoopGives(GetLineLoop(st, 0, n), st, tail, count, st.buf[..0] + text)
    ensures NextLine(st, n) == (text, ReaderState(tail, tail == [], st.lines + count, text))
  {
    assert st.buf[..0] + text == text;
  }

  /** Unfolding undoes folding: reader_getline on a stream that holds a
      folded line gives the line back, with one physical line counted per
      chunk, and leaves the stream just after it. */
  lemma UnfoldFolded(st: ReaderState, n: nat, chunks: seq<string>, marks: seq<char>, tail: string)
    requires Good(st) && !st.eof && 2 <= n <= BufSize && |st.buf| < n
    requires FoldOk(chunks, marks)
    requires st.rest == Folded(chunks, marks) + tail
    requires tail == [] || !IsSpace(tail[0])
    requires |Concat(chunks)| + 3 <= n
    ensures NextLine(st, n) ==
      (Concat(chunks), ReaderState(tail, tail == [], st.lines + |chunks|, Concat(chunks)))
  {
    LoopOverFolded(st, 0, n, chunks, marks, tail);
    NextLineFromLoop(st, n, |chunks|, tail, Concat(chunks));
    assert NextLine(st, n).0 == Concat(chunks);
    assert NextLine(st, n).1 == ReaderState(tail, tail == [], st.lines + |chunks|, Concat(chunks));
  }

  /** A logical line as it may be written to a stream: its chunks and the
      whitespace character that starts each continuation line. */
  datatype Fold = Fold(chunks: seq<string>, marks: seq<char>)

  /** A fold the reader can take in one go: well formed, fitting the
      buffer, and not itself looking like a continuation (it starts with a
      character that is not whitespace). */
  predicate Writable(f: Fold) {
    FoldOk(f.chunks, f.marks) && |Concat(f.chunks)| + 3 <= BufSize &&
    f.chunks[0] != [] && !IsSpace(f.chunks[0][0])
  }

  /** The folds written one after the other. */
  function Stream(fs: seq<Fold>): string
    requires forall i :: 0 <= i < |fs| ==> Writable(fs[i])
  {
    if fs == [] then ""
    else
      assert Writable(fs[0]);
      Folded(fs[0].chunks, fs[0].marks) + Stream(fs[1..])
  }

  /** The logical lines the folds stand for. */
  function Unfolded(fs: seq<Fold>): seq<string> {
    if fs == [] then [] else [Concat(fs[0].chunks)] + Unfolded(fs[1..])
  }

  /** A stream written as folded logical lines reads back as exactly those
      logical lines, and then the end of the stream. */
  lemma {:induction false} LinesOfStream(fs: seq<Fold>, st: ReaderState)
    requires fs != [] && forall i :: 0 <= i < |fs| ==> Writable(fs[i])
    requires Good(st) && !st.eof && st.rest == Stream(fs)
    ensures Lines(st) == Unfolded(fs)
    decreases |fs|
  {
    var tail := Stream(fs[1..]);
    var c := Concat(fs[0].chunks);
    if |fs| == 1 {
      assert tail == [];
    } else {
      assert tail[0] == fs[1].chunks[0][0];
    }
    UnfoldFolded(st, BufSize, fs[0].chunks, fs[0].marks, tail);
    var next := NextLine(st, BufSize).1;
    assert NextLine(st, BufSize).0 == c;
    assert next.rest == tail && next.eof == (tail == []) && Good(next);
    LinesCons(st);
    if |fs| == 1 {
      assert Lines(next) == [];
    } else {
      LinesOfStream(fs[1..], next);
    }
  }
}
