# cical in Dafny

A model of cical, a small iCalendar (RFC 5545) parser in C. The model covers five parts.

- **Line reader** (`src/cical_reader.c`). It turns the physical lines of a stream into logical lines. A physical line followed by a whitespace character is continued by the next one, and the terminator and that character are dropped.
- **Content-line tokenizer** (`src/cical.c`). It splits one logical line into a name, a raw parameter text and a value, and does not look inside quoted regions.
- **Recursive tree builder** (`src/cical.c`). From `BEGIN:`/`END:` lines it builds a tree of components. The children and properties of each component live in the prepend-only linked list of `src/cical_list.c`.
- **Fixed-capacity stack**, `src/cical_stack.c`.
- **Older stand-alone parser** in `cical.c` at the repository root. It has its own endline, a quote-unaware `parse_property`, a 100-slot stack and a `main` loop driven by `BEGIN:`/`END:`.

It also covers the two printers of the tree: JSON in `src/cical_print_json.c` and Markdown in `src/cical_print_markdown.c`.

Files and modules:

| file | module | contents |
|---|---|---|
| util.dfy | `Util` | `Option` (a nullable C pointer), `isspace`, counting, `strncmp` prefixes |
| models.dfy | `Models` | `Param`, `Property`, `Component` as values |
| list.dfy | `CicalList` | the list as a class over the sequence of its nodes' data; iterators as values |
| stack.dfy | `CicalStack` | the 32-slot stack as a class over an `array` and `top` |
| reader.dfy | `CicalReader` | see below |
| parser.dfy | `Cical` | `read_until`, `property_parse`, the component operations, `parse_component`, `parse_icalendar` |
| roundtrip.dfy | `CicalRoundTrip` | a reference writer of component trees, and proofs that parsing its output rebuilds the tree |
| legacy.dfy | `CicalLegacy` | the root `cical.c` |
| json.dfy | `CicalJson` | the JSON printer, as methods appending to an `Output` |
| markdown.dfy | `CicalMarkdown` | the Markdown printer, as functions giving the printed text |

How the reader is modelled:

- The `FILE*` is an in-memory stream: the characters not read yet and the end-of-file flag.
- `fgets`, `fgetc` and `ungetc` are methods of the `Reader` class.
- The reader's buffer is the C string it holds.
- Each step of `reader_getline`'s loop is proved against a function of the state.

The headline results:

- `CicalReader.UnfoldFolded` and `CicalReader.LinesOfStream`: reading a stream of folded logical lines gives exactly those logical lines back.
- `CicalRoundTrip.ParseStream`: `parse_icalendar` on any folded stream of a written component tree rebuilds that tree.
- `Cical.PropertyParseRebuilds`: every parsed property gives back the line it came from.
- `CicalJson.ReadEscaped` and `CicalJson.PropRoundTrip`: the printed JSON strings and property objects read back as what was printed.

Where RFC 5545 and the C code differ, the model follows the code:

- **Parameters.** Section 3.1 of RFC 5545 writes a content line as `name *(";" param) ":" value`, each `param` being a name, `=` and one or more comma-separated values. The tokenizer keeps the whole parameter section as one raw string and does not split it into parameters (`src/cical.c:154-163`).
- **Folding.** Section 3.1 of RFC 5545 continues a folded line only with a single space or horizontal tab. The reader continues it with any `isspace` character (`src/cical_reader.c:50`), so a line starting with `\v`, `\f`, `\r` or `\n` after a line break is also joined.
- **BEGIN/END pairing.** Section 3.6 of RFC 5545 closes every `BEGIN:X` with an `END:X`. The builder never compares the names (`src/cical.c:194-196`). A stray `END:` ends the current `parse_component` without any error. Components still open at the end of the stream are attached as they are.

Other facts about the code that the model keeps:

- Properties and children are prepended (`src/cical.c:92-110`), so each list is stored newest first.
- The JSON printer escapes only `\` and `"` (`src/cical_print_json.c:12-17`) and prints the component name unescaped (`src/cical_print_json.c:29`).
- An empty property or child list prints as an opening line and a closing line with nothing between them (`src/cical_print_json.c:29-36` and `src/cical_print_json.c:75-87`).
- The Markdown printer prints values as they are. Rendering links, `mailto:` addresses and timestamps is listed as still to do (`src/cical_print_markdown.c:11-18`).

## Model

| member | source | states |
|---|---|---|
| Cical.ReadUntil | src/cical.c:117-127 | the scanning loop with its quote counter returns exactly the index `Until(s, stop)` |
| Cical.UntilFirst | src/cical.c:117-127 | `read_until` returns the first index holding a stop character with an even number of `"` before it, or the end of the string; it never returns null |
| Cical.UntilAt | src/cical.c:117-127 | any index with those two properties is the one `read_until` returns (uniqueness) |
| Cical.UntilEnd | src/cical.c:117-127 | `read_until` reaches the NUL exactly when no unquoted stop character occurs |
| Cical.UntilAppend | src/cical.c:117-127 | a prefix with balanced quotes and no unquoted stop is skipped whole: the index is its length plus the index in the rest |
| Cical.PropertyParse | src/cical.c:138-180 | a parsed property always has a parameter text and a value, and no parameter list |
| Cical.PropertyParseRebuilds | src/cical.c:138-180 | the line equals name ";" param ":" value after a `;`, and name ":" value otherwise; the name and the parameter text hold no unquoted stop and close their quotes (`read_part` copies exactly the scanned length) |
| Cical.PropertyParseWithParam | src/cical.c:154-173 | any line built from a plain name, a plain parameter text and any value parses back into exactly those three |
| Cical.PropertyParseNoParam | src/cical.c:145-173 | a plain name, then `:` and any value, parses into that name, the parameter text "" and the value verbatim |
| Cical.PropertyParseNone | src/cical.c:138-180 | null exactly when no unquoted `:` or `;` ends the name, or when a `;` does and no unquoted `:` follows it |
| Cical.PropertyParseQuotedColon | src/cical.c:154-173 | `N;P="a:b":v` parses into name N, parameter text `P="a:b"` and value v |
| Cical.ComponentCreate | src/cical.c:78-90 | a component with the given name and empty property and child lists |
| Cical.ComponentAdd | src/cical.c:92-100 | the child is prepended and nothing else changes; a null argument changes nothing |
| Cical.ComponentPropertyAdd | src/cical.c:102-110 | the property is prepended and nothing else changes; a null argument changes nothing |
| Cical.Build | src/cical.c:182-203 | building keeps the top component's name and consumes at least one line of a non-empty input |
| Cical.BuildStops | src/cical.c:188-196 | an empty line or an `END:` line ends the component after one line, leaving it unchanged |
| Cical.BuildTakesProperty | src/cical.c:197-201 | any other line is parsed as a property; when it parses it is prepended to the component, and otherwise it is dropped |
| Cical.BuildTakesChild | src/cical.c:189-193 | a `BEGIN:X` line opens a child named X that is built from the following lines and then prepended; building continues after the child's lines |
| Cical.ParseComponent | src/cical.c:182-203 | the recursive loop over the reader leaves the component as `Build` makes it from the reader's logical lines and leaves the stream at the lines `Build` did not consume |
| Cical.ParseICalendar | src/cical.c:205-214 | a reader over the stream, then `parse_component`: the component as `Build` makes it from all the stream's logical lines |
| CicalRoundTrip.PropertyRoundTrip | src/cical.c:138-180 | a writable property's line is not empty and parses back into that property |
| CicalRoundTrip.BuildProps | src/cical.c:197-201 | the lines of a property list, read into a component, prepend the properties so that they end up stored as they were |
| CicalRoundTrip.BuildEmit | src/cical.c:189-193 | the lines of a writable component, read into c, make it c's newest child and leave the lines after its `END:` |
| CicalRoundTrip.BodyOfEmit | src/cical.c:182-203 | what follows a component's `BEGIN:` line, read into a fresh component of that name, rebuilds the component and stops after its `END:` |
| CicalRoundTrip.BuildChildren | src/cical.c:189-193 | the lines of the first i children, read into c, prepend those children in front of c's own |
| CicalRoundTrip.ParseEmitted | src/cical.c:182-203 | parsing the written lines of any writable tree rebuilds it as the newest child of the top and consumes all the lines |
| CicalRoundTrip.ParseStream | src/cical.c:205-214 | `parse_icalendar` on any stream that folds the written lines of a writable tree rebuilds that tree under the top |
| CicalReader.LineEnd | src/cical_reader.c:27-32 | the index of the first `\r`, `\n` or NUL, or the end: a terminator is there and none comes before it |
| CicalReader.LineEndAt | src/cical_reader.c:27-32 | only one index has those properties |
| CicalReader.EndLine | src/cical_reader.c:27-32 | the scanning loop of `endline` stops at exactly `LineEnd` past its start |
| CicalReader.FgetsCount | src/cical_reader.c:43 | `fgets` takes characters up to and including the first newline, within the limit and the input |
| CicalReader.FgetsSpec | src/cical_reader.c:43 | `fgets` returns null and leaves the buffer alone when the size is not positive or the input is exhausted; otherwise it keeps the buffer before `ptr`, consumes input when the size exceeds 1, and leaves the line count alone |
| CicalReader.Reader.constructor | src/cical_reader.c:7-18 | `reader_create`: a reader at the start of the stream, with no line read yet and the end-of-file flag clear |
| CicalReader.Reader.Fgets | src/cical_reader.c:43 | the `fgets` call on the reader's stream and buffer does what `FgetsSpec` says |
| CicalReader.Reader.Fgetc | src/cical_reader.c:46 | the next character is consumed; EOF sets the end-of-file flag |
| CicalReader.Reader.Ungetc | src/cical_reader.c:50-55 | the character is pushed back in front of the stream and the end-of-file flag is cleared |
| CicalReader.Peek | src/cical_reader.c:46-58 | after a physical line: EOF or a non-whitespace character (pushed back) ends the loop; whitespace is consumed and moves `ptr` to the stored line's terminator |
| CicalReader.LoopStep | src/cical_reader.c:43-59 | one pass of the loop keeps `ptr` inside the buffer and, unless it ends the loop, consumes input |
| CicalReader.GetLineLoop | src/cical_reader.c:43-59 | the whole loop terminates with `ptr` inside the buffer and the stream no longer than before |
| CicalReader.Cut | src/cical_reader.c:61-62 | the buffer is cut at the terminator of its last segment, and the result is what the buffer then holds |
| CicalReader.NextLine | src/cical_reader.c:34-66 | nothing changes at end of file; before it, the returned line is the cut buffer, fits in `n` with its NUL, and progress is made |
| CicalReader.GetLineStep | src/cical_reader.c:43-59 | one pass of the loop on the reader leaves the state `LoopStep` describes |
| CicalReader.GetLineRun | src/cical_reader.c:41-59 | the loop from `ptr = r->buf` leaves the state and `ptr` that `GetLineLoop` describes |
| CicalReader.CutLine | src/cical_reader.c:61-62 | the writing of the NUL at the terminator does what `Cut` says |
| CicalReader.ReaderGetline | src/cical_reader.c:34-66 | a null reader gives 0; otherwise the copied line and the new state are `NextLine`'s, and the length returned is the line's length |
| CicalReader.LoopKeepsClean | src/cical_reader.c:43-59 | the loop never leaves a terminator before `ptr` |
| CicalReader.NextLineClean | src/cical_reader.c:61-62 | a line returned by `reader_getline` holds no CR, no LF and no NUL |
| CicalReader.FgetsOverLine | src/cical_reader.c:43 | with room in the buffer, `fgets` stores a whole physical line `c\r\n` at `ptr` and consumes it |
| CicalReader.PeekAfterLine | src/cical_reader.c:46-58 | after a stored `c\r\n`, a fold character makes the next `fgets` write over the CR |
| CicalReader.StepOverLine | src/cical_reader.c:43-58 | one pass over a physical line stores it at `ptr` and counts it, and the character after it decides whether the loop goes on |
| CicalReader.LoopOverFolded | src/cical_reader.c:43-59 | the loop over a folded line leaves the chunks joined in the buffer, counts one line per physical line and stops right after the last CRLF |
| CicalReader.UnfoldFolded | src/cical_reader.c:34-66 | `reader_getline` on a stream holding a folded line returns the chunks joined and counts one line per chunk (`r->lines` grows by the number of `fgets` calls), leaving the stream just after it |
| CicalReader.LinesStep | src/cical_reader.c:34-66 | before the end of the stream, reading one line leaves the remaining logical lines |
| CicalReader.LinesCons | src/cical_reader.c:34-66 | the logical lines are the one read next, then those of the state it leaves |
| CicalReader.LinesOfStream | src/cical_reader.c:34-66 | a stream written as folded logical lines reads back as exactly those logical lines, then end of file |
| CicalList.List.constructor | src/cical_list.c:57-67 | `list_create`: an empty list (null head) |
| CicalList.List.Add | src/cical_list.c:88-94 | `list_add(l, x)` makes the list `[x] + old`, and the earlier elements keep their relative order |
| CicalList.Destroy | src/cical_list.c:69-86 | every node is unlinked, and the destructor is called on each element once, head to tail, when there is one; a null list does nothing |
| CicalList.NextProgress | src/cical_list.c:14-30 | `next` on an ended iterator leaves it ended and shortens a live one by one node |
| CicalList.VisitsAll | include/cical_list.h:25 | the `ITERATE` loop visits every element exactly once, head to tail |
| CicalList.VisitsAfterAdd | src/cical_list.c:88-94 | after a prepend, iteration meets the new element first, then the old ones in their order |
| CicalList.Iterate | include/cical_list.h:25 | the `ITERATE` loop on a list collects the list's elements in stored order and does not change the list |
| CicalStack.Stack.constructor | src/cical_stack.c:5-15 | `stack_create`: an empty stack with `top = -1` |
| CicalStack.Stack.Push | src/cical_stack.c:24-29 | stores x at `top + 1`, increments `top` and changes no other slot; the unchecked capacity becomes the precondition `top < 31` |
| CicalStack.Stack.Pop | src/cical_stack.c:31-37 | returns the topmost element and decrements `top`, leaving the buffer alone; the unchecked empty case becomes a precondition |
| CicalStack.StackPush | src/cical_stack.c:24-29 | on a possibly null stack: a non-null stack has x on top afterwards |
| CicalStack.StackPop | src/cical_stack.c:31-37 | null gives null; otherwise it returns the topmost element and removes it |
| CicalStack.StackEmpty | src/cical_stack.c:39-45 | true exactly for a non-null stack with no elements; false for a null stack |
| CicalStack.PushThenPop | src/cical_stack.c:24-37 | a push then a pop gives back the pushed element and the stack as it was (LIFO) |
| CicalLegacy.FindCompType | cical.c:56-60 | the stub returns UNKNOWN for every type name |
| CicalLegacy.CrlfFrom | cical.c:136 | `strstr(buf, "\r\n")`: the first CRLF at or after i, or the end |
| CicalLegacy.CharFrom | cical.c:138 | `strchr`: the first occurrence of the character at or after i, or the end |
| CicalLegacy.LegacyEndline | cical.c:135-144 | the first CRLF when there is one anywhere; otherwise the first `\n`, otherwise the end of the string |
| CicalLegacy.EndlinesAgree | cical.c:135-144 | on text without `\r` and NUL the root endline and the one in `src/cical_reader.c` agree |
| CicalLegacy.EndlinesDiffer | cical.c:135-144 | on `a\nb\r\n` the root endline skips to the CRLF at 3, while the other stops at the `\n` at 1 |
| CicalLegacy.MarkFrom | cical.c:183-195 | the first `:` or `"` at or after i, or the end |
| CicalLegacy.LegacyCut | cical.c:178-200 | as written: nothing is split exactly when the line has neither `:` nor `"`; a `:` found first splits there; a `"` found first ends the name just past the quote and loses the next character |
| CicalLegacy.ParseProperty | cical.c:178-200 | the `in_quotes` loop and the NUL it writes give exactly `LegacyCut` |
| CicalLegacy.LegacyCutNoQuote | cical.c:183-199 | with no `"` before the first `:`, the line splits into the text before it and the text after it, as the quote-aware split does |
| CicalLegacy.FixedCut | cical.c:183-197 | the corrected split: any cut it makes has a value |
| CicalLegacy.ParsePropertyFixed | cical.c:183-197 | `read_until(line, ":")` and a split there give exactly `FixedCut` |
| CicalLegacy.FixedCutRebuilds | cical.c:183-197 | the corrected split finds nothing exactly when no `:` stands outside quotes; otherwise name ":" value is the line, and the name has balanced quotes and no unquoted `:` |
| CicalLegacy.LegacyQuoteCut | cical.c:183-197 | as written, `N;P="a:b":v` gives the name `N;P="` and the value `:b":v` |
| CicalLegacy.FixedQuoteCut | cical.c:183-197 | corrected, `N;P="a:b":v` gives the name `N;P="a:b"` and the value `v` |
| CicalLegacy.LegacyStack.constructor | cical.c:79-87 | `init_stack`: an empty stack with `top = -1` |
| CicalLegacy.LegacyPush | cical.c:93-95 | stores the element at `++top`; a null stack is left alone; the unchecked capacity of 100 becomes a precondition |
| CicalLegacy.LegacyPop | cical.c:97-100 | returns `buf[top--]` and null for a null stack; the unchecked empty case becomes a precondition |
| CicalLegacy.LegacyTop | cical.c:102-105 | the topmost element without popping; null for a null stack |
| CicalLegacy.LegacyEmpty | cical.c:107-110 | true exactly for a non-null stack with `top < 0` |
| CicalLegacy.Step | cical.c:213-233 | one line of the loop: `BEGIN:` points `top` at a new component, `END:` sets `top` to null, and any other line leaves the stack, `comps` and `top` as they were |
| CicalLegacy.FirstEmpty | cical.c:213 | the loop ends at the first line `reader_getline` returns as empty |
| CicalLegacy.StepBegin | cical.c:216-221 | a `BEGIN:` line with room on the stack pushes a new component of unknown type and makes it `top` |
| CicalLegacy.StepEnd | cical.c:223-228 | an `END:` line pops the topmost component into the next slot of `comps` and sets `top` to null |
| CicalLegacy.StepText | cical.c:230-232 | any other line goes to `parse_property` with `top`'s component, and is dropped when `top` is null |
| CicalLegacy.StepBounds | cical.c:205-233 | a step that stays defined had room on the stack, a component to pop and room in `comps`, or an assigned `top`, as its line needs |
| CicalLegacy.Feed | cical.c:213-233 | one pass of the loop on the stack, the `comps` array and `top` leaves the state `Step` gives |
| CicalLegacy.MainLoop | cical.c:202-241 | the loop of `main` up to the first empty line leaves `comps` and the lines handed to `parse_property` as `Run` says |
| CicalLegacy.RunComps | cical.c:216-228 | every component on the stack or in `comps` was created by an earlier `BEGIN:` line and has type UNKNOWN |
| CicalLegacy.RunTop | cical.c:208-232 | whenever `top` points somewhere, it points at the component on top of the stack; it is unassigned only until the first `BEGIN:` or `END:` |
| CicalLegacy.RunCounts | cical.c:216-228 | the stack holds one component per `BEGIN:` not yet matched by an `END:`, and `comps` holds one per `END:` |
| CicalLegacy.IgnoredAfterEnd | cical.c:223-232 | after an `END:` no line reaches `parse_property` until the next `BEGIN:`, and `top` stays null |
| CicalLegacy.ExampleLines | cical.c:216-228 | how the loop classifies each line of a one-event calendar |
| CicalLegacy.ExampleOpens | cical.c:213-232 | the first three lines open the calendar and the event and hand `UID:1` to `parse_property` with the event |
| CicalLegacy.ClosingOrder | cical.c:213-232 | `comps` lists the event before the calendar (closing order), and a property after the event's `END:` is ignored |
| CicalJson.Output.Put | src/cical_print_json.c:28 | `printf` appends its text to the output |
| CicalJson.EscapeChar | src/cical_print_json.c:13-17 | `\` and `"` get a backslash in front; every other character is printed as it is |
| CicalJson.PrintEscapedJson | src/cical_print_json.c:8-19 | the character loop appends exactly `Escape(p)` |
| CicalJson.EscapeAppend | src/cical_print_json.c:8-19 | escaping works character by character: escaping a concatenation concatenates the escapes |
| CicalJson.EscapeLength | src/cical_print_json.c:12-17 | the escaped length is the input's length plus the number of `\` and `"` |
| CicalJson.EscapePlain | src/cical_print_json.c:12-17 | text without `\` and `"` (control characters included) is printed unchanged |
| CicalJson.ReadString | src/cical_print_json.c:12-17 | the partner reader stops at an unescaped `"`, which it leaves in front of the rest |
| CicalJson.ReadEscaped | src/cical_print_json.c:12-17 | dropping each inserted backslash restores the input, and an escaped string never ends the JSON string early |
| CicalJson.Indent | src/cical_print_json.c:25-26 | the indent is `Min(Max(2 * depth, 1) + 1, 31)` spaces: the `%*c ` field width, cut to the 32-byte buffer |
| CicalJson.SepShape | src/cical_print_json.c:33-36 | items joined with `,\n` start with the first item and end with the last, with exactly one separator between neighbours and none before or after |
| CicalJson.PrintField | src/cical_print_json.c:43-50 | a `"param"` or `"value"` member is printed only when the field is not null |
| CicalJson.PrintPropertyJson | src/cical_print_json.c:38-51 | the property loop's body appends exactly `PropJson` |
| CicalJson.FieldRead | src/cical_print_json.c:43-50 | a member, printed or left out, reads back as the field it came from |
| CicalJson.PropRoundTrip | src/cical_print_json.c:40-51 | the object printed for a property reads back as that property, with `"param"` and `"value"` present exactly when they were not null |
| CicalJson.PrintProps | src/cical_print_json.c:31-69 | the property loop appends the objects with `,\n` before all but the first, and `\n` after the last when there is one |
| CicalJson.PrintChild | src/cical_print_json.c:77-83 | one turn of the children loop appends the separator (except for the first child) and the n-th child at `depth + n + 1` |
| CicalJson.PrintChildren | src/cical_print_json.c:75-87 | the children loop appends the children in list order, the i-th at `depth + i + 1`, separated by `,\n`, with `\n` after the last |
| CicalJson.ComponentPrintJson | src/cical_print_json.c:22-91 | the recursive printer appends exactly `ComponentJson(c, depth)`: head, properties, children, tail |
| CicalJson.PrintTopChild | src/cical_print_json.c:97-99 | one turn of `print_json`'s loop appends the next child at depth 1 |
| CicalJson.PrintJson | src/cical_print_json.c:94-101 | appends `[`, every top-level child at depth 1 with nothing between them, then `]` |
| CicalJson.TwoTopLevel | src/cical_print_json.c:94-101 | two top-level children are both printed at depth 1 with no separator |
| CicalJson.ChildItems | src/cical_print_json.c:81 | the k-th child (from 0) is printed at `depth + k + 1` |
| CicalJson.PropsJoined | src/cical_print_json.c:33-69 | the property list prints as its objects joined by `,\n` and followed by `\n` |
| CicalJson.KidsJoined | src/cical_print_json.c:75-87 | the children print as their objects joined by `,\n` and followed by `\n`, the k-th at `depth + k + 1` |
| CicalJson.TwoChildren | src/cical_print_json.c:77-86 | inside a component, two children are printed one and two levels deeper, with `,\n` between them |
| CicalMarkdown.MarkdownList | src/cical_print_markdown.c:25-33 | `markdown_print_list`: an empty list prints nothing; otherwise each element's text in list order (stated in `ListCons`, `ListAppend` and `ListLengthSum`) |
| CicalMarkdown.IndentedValue | src/cical_print_markdown.c:35-40 | a value prints verbatim after a six-character bullet holding no newline, so no newline is added |
| CicalMarkdown.ParamText | src/cical_print_markdown.c:42-49 | a parameter prints its `  - *NAME*` line first and ends with a newline; `ParamNewlines` counts its newlines |
| CicalMarkdown.PropertyLine | src/cical_print_markdown.c:55-59 | the first line of a property starts with `- *NAME*` and ends with a newline; `PropertyLineShape` states what lies between |
| CicalMarkdown.PropertyText | src/cical_print_markdown.c:51-62 | a property prints its first line first, then its parameters, and ends with a newline |
| CicalMarkdown.ComponentText | src/cical_print_markdown.c:64-72 | `markdown_print_component`: heading, properties, children one level deeper, newline (stated in `ChildrenInOrder` and `ComponentFrame`) |
| CicalMarkdown.ChildrenText | src/cical_print_markdown.c:70 | the walk over a component's children; `ChildrenList` proves it is `markdown_print_list` with the component printer |
| CicalMarkdown.MarkdownPrint | src/cical_print_markdown.c:74-80 | a top container without children prints nothing; `TopLevelAtZero` and `TopNotPrinted` state the rest |
| CicalMarkdown.Heading | src/cical_print_markdown.c:68 | the precision `indent + 1` on `"######"` gives `Min(indent + 1, 6)` marks, then a space, the name and a blank line |
| CicalMarkdown.HeadingLevel | src/cical_print_markdown.c:68 | the heading starts with exactly `Min(indent + 1, 6)` `#` characters followed by a space |
| CicalMarkdown.HeadingCapped | src/cical_print_markdown.c:68 | from indent 5 on, headings stop growing |
| CicalMarkdown.ListAppend | src/cical_print_markdown.c:26-33 | printing two lists one after the other prints their concatenation |
| CicalMarkdown.ListCons | src/cical_print_markdown.c:26-33 | the list walk prints the first element's text, then the rest's, in list order |
| CicalMarkdown.ListLengthSum | src/cical_print_markdown.c:26-33 | the walk adds nothing between or around the elements, and an empty list prints nothing |
| CicalMarkdown.EmptyValueHidden | src/cical_print_markdown.c:55-59 | an empty value prints exactly as a null one |
| CicalMarkdown.PropertyLineShape | src/cical_print_markdown.c:55-59 | the line starts `- *NAME*`, then `: VALUE` and a newline when the value is shown, or only the newline otherwise |
| CicalMarkdown.ParamNewlines | src/cical_print_markdown.c:42-49 | a parameter prints two newlines besides those inside its name and values: its values share one line |
| CicalMarkdown.ValuesCount | src/cical_print_markdown.c:35-40 | the values are printed without any newline of their own |
| CicalMarkdown.ChildrenList | src/cical_print_markdown.c:70 | the children are walked as any list, with the component printer at `indent + 1` |
| CicalMarkdown.ChildrenInOrder | src/cical_print_markdown.c:64-72 | for any component: its heading, then its properties as a list, then its children as a list printed at `indent + 1`, then a newline |
| CicalMarkdown.ComponentFrame | src/cical_print_markdown.c:64-72 | a component's text starts with its heading and ends with a newline |
| CicalMarkdown.TopNotPrinted | src/cical_print_markdown.c:74-80 | the top container's name and properties are not printed |
| CicalMarkdown.TopLevelAtZero | src/cical_print_markdown.c:74-80 | each child of the top container is printed at indent 0, in list order |

## Left out

- The real `FILE*`, standard input and standard output: the stream is an in-memory string with an end-of-file flag; an output stream is the text appended so far (`CicalJson.Output`) or the text a printer function gives (Markdown).
- Bytes: the C code works on bytes, and one model `char` stands for one byte of the stream. Non-ASCII text is therefore modelled as its UTF-8 bytes, one `char` below 256 per byte. The `fgets` size, `BUF_SIZE` and the bound `n - (ptr - r->buf)` at `src/cical_reader.c:43` count bytes. A line of 5000 `é` is 10000 bytes, and the C reader splits it at 8191 bytes. Read as 5000 `char`s, the model returns one line. The reader lemmas hold for such a stream only when it is given byte by byte.
- `main`, `usage` and `version` of `src/cical.c`: option parsing and file opening.
- `src/cical_time.c` and `include/cical_trace.h`: the time conversion calls library code that depends on the timezone, and tracing is diagnostic output only.
- Diagnostics on stderr and stdout (`fprintf(stderr, …)`, `perror`, the `printf` lines in the root `main`, `find_comp_type` and `parse_property`): they change no state. `CicalLegacy.ParseProperty` returns the split that the root `parse_property` prints.
- Allocation, allocation failure (`exit`), `free`, `reader_destroy`, `stack_destroy`, `property_destroy`, `component_destroy` and `property_create`: components, properties and lists are owned values. `property_create` is the `Property` constructor.
- `CicalList.Destroy`: `n->data` is never null in the model, so the `n->data` test at `src/cical_list.c:80` is not modelled.
- The reader loop of the root `cical.c` (`reader_getline`, lines 146-176): it repeats the loop of `src/cical_reader.c` with the root endline and a `BUF_SIZE`-based bound. `CicalLegacy.MainLoop` takes the logical lines as input. `EndlinesAgree` and `EndlinesDiffer` show where the two endlines agree and where they differ.
- Undefined behaviour becomes preconditions or `None`. This covers:
  - a push onto a full stack and a pop from an empty one;
  - a 257th entry in the root `comps`;
  - a line longer than the reader's buffer;
  - reading the root `main`'s `top` before it was assigned.

  The model treats an unassigned `top` as an error state (`Unset`, making `Step` give `None`), not as null.
- CicalLegacy.LegacyCut: a value read past the end of the line (a `"` as the last character) is modelled as `None`, not as the memory after the string.
- `reader_create` leaves `r->buf` uninitialised; the model starts it empty.
- The `"(no properties)"` branch of `component_print_json` (`src/cical_print_json.c:70-71`): a component's property list is never null.
- The `snprintf` indent is modelled only by its length (the field width cut to 31 characters) and its spaces.
- `markdown_print_list`'s `indent` argument for properties, parameters and values: those printers ignore it, so the model does not pass it.
- The `printf("%s", c->name)` of `component_print_json` prints the component name unescaped; the model does not read it back.
- CicalJson.ReadString: its ensures states only where the reader stops; what it reads is given by `ReadEscaped`.

## Findings

| source | as written | input that shows it | evidently intended | confidence | as-written member | corrected member |
|---|---|---|---|---|---|---|
| cical.c:183-197 | the loop runs only while `in_quotes` is false, so it ends as soon as the first `"` toggles it; the NUL goes right after the quote and the character there is lost | `N;P="a:b":v` gives the name `N;P="` and the value `:b":v` | `in_quotes` toggles at every `"` and only a `:` outside quotes ends the name, as `read_until` does in `src/cical.c` | not executed | CicalLegacy.LegacyQuoteCut | CicalLegacy.FixedQuoteCut |
