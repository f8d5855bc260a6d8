# Pretty-printer engine of Schemy, modelled in Dafny

Schemy's `PrettyPriner` (in `src/schemy/Utils.Printer.cs`) is a partial C# port of the
Common Lisp pretty printer: ANSI Common Lisp section 22.2.1.1, "Dynamic Control of the
Arrangement of Output", with tabs after `PPRINT-TAB` (section 22.4). Text printed to a
`PrettyStream` first collects in a pending buffer. Layout directives (indentation, tabs,
logical-block starts and ends) go to a queue of pending operations. A stack of logical
blocks keeps each block's columns, its prefix lengths and a cursor over the list it prints.

This project models the complete, self-contained parts of that engine and proves what
they promise:

- `results.dfy` (module `Results`): `Option`, `Result`, `Outcome`, and the .NET
  exceptions the code throws, as values (`NullReference`, `ArgumentNull`,
  `ArgumentOutOfRange`, `DivideByZero`).
- `types.dfy` (module `PrinterTypes`): the configuration record, which replaces the
  static printer variables; the printed values; the queued-operation variants; the tab
  flags; and `DropThrough`, the specification of `DequeueUpTo`.
- `atoms.dfy` (module `Atoms`): the text `PrintObject` produces for atoms, checked
  against a token reader.
- `layout.dfy` (module `Layout`): tab sizes (as written and repaired), the fit test
  and the miser test, as pure functions of explicit inputs.
- `lisp.dfy` (module `Lisp`): `Fill` and `Replace` over arrays, with `Replace` both
  as written and repaired.
- `stream.dfy` (module `Stream`): class `LogicalBlock`, with its cursor, and class
  `PrettyStream`, with its pending text, queue, block stack and `char` prefix array.
  Its methods are proved against what each source method does to that state.

Modelling choices:
- The C# queue holds objects compared by reference (`DequeueUpTo`, `BlockStart.BlockEnd`).
  Each queued op carries an `id` for that identity, drawn from the stream's `nextId`
  counter. `PrettyStream.Valid()` keeps the ids distinct.
- Only the text op made from the pending buffer gets the current `Column`. The
  C# code never sets `Column` on the other ops it creates, so they keep 0.
- The code misspells some names, and the model spells them correctly:
  `SetIndentination` is `SetIndentation`, `RealyEndLogicalBlock` is
  `ReallyEndLogicalBlock`, `Identination` is `Indentation`, and `DoesNotFits` is
  `DoesNotFit`. The model also renames some entities: `EFitsResult` is `FitsResult`,
  and the overload `PrintString(char)` is `PrintChar`.
- The code's `DLinkedList` is not part of this model. It is taken to behave like .NET's
  `LinkedList`: `Last` and `First` are null when the list is empty.

In some places the code departs from the Common Lisp pretty printer it ports. There the
model follows the code:
- `PPRINT-LOGICAL-BLOCK` ends its block on exit. `PrintLogicalBlock` pushes its block,
  and nothing pops it again (:501-514).
- A block start carries its nesting depth. Here `BlockStart` ops are queued with depth 0.
- After a pop, the enclosing block is the one in effect. `RealyEndLogicalBlock`
  re-extends the prefix to the length of `Blocks.First`, which is the bottom of the
  stack (:967).
- Common Lisp signals a type error for a bad tab column or increment, and an error for
  a prefix together with a per-line prefix. The code raises
  `ArgumentOutOfRangeException` in both cases (:398-401, :505).

## Model

| member | source | states |
|---|---|---|
| `Stream.LogicalBlock.Root` | src/schemy/Utils.Printer.cs:247-251 | the root block has no list, a cursor at 0 and all column fields 0 |
| `Stream.LogicalBlock.constructor` | src/schemy/Utils.Printer.cs:253-259 | a block over `l` has its cursor at 0, so all of `l` is still to be popped |
| `Stream.LogicalBlock.PrintPop` | src/schemy/Utils.Printer.cs:261-265 | succeeds iff the list is not exhausted; then it returns `List[ListIndex]` and advances the cursor by exactly one. It throws `ArgumentNull` on an exhausted list and `NullReference` on a missing list, and the cursor does not move. `ListIndex <= List.Count` is kept |
| `Stream.LogicalBlock.IsListExhausted` | src/schemy/Utils.Printer.cs:267 | true iff `ListIndex >= List.Count`; fails with `NullReference` iff the block has no list |
| `Stream.PrettyStream.constructor` | src/schemy/Utils.Printer.cs:298-335 | empty buffer and queue. The stack holds one root block, which has no list and all column fields 0. The prefix and suffix arrays have 256 cells, all `'\0'` |
| `Stream.PrettyStream.Enqueue` | src/schemy/Utils.Printer.cs:349-360 | earlier entries are unchanged and `op` is last. When pending text existed, exactly one `StringOp` with that text, stamped with the current column, is queued just before `op`; otherwise nothing else is added. The buffer is empty afterwards |
| `Stream.PrettyStream.EnqueueIndent` | src/schemy/Utils.Printer.cs:386-392 | queues one indentation op of the given kind and amount after the flushed text |
| `PrinterTypes.TabFor` | src/schemy/Utils.Printer.cs:403-420 | the tab keeps `colnum` and `colinc`. It is a section tab iff the kind is `Section` or `SectionRelative`, and relative iff the kind is `LineRelative` or `SectionRelative` |
| `Stream.PrettyStream.EnqueueTab` | src/schemy/Utils.Printer.cs:394-425 | refuses `colnum < 0`, then `colinc < 0`, leaving queue and buffer unchanged. Otherwise it queues one tab whose flags follow its kind, and that tab is well formed |
| `PrinterTypes.TabFlagsAreABijection` | src/schemy/Utils.Printer.cs:403-420 | the four kinds map to the four distinct `(IsSection, IsRelative)` pairs: Line (F,F), LineRelative (F,T), Section (T,F), SectionRelative (T,T). Every pair comes from exactly one kind |
| `Stream.PrettyStream.DequeueUpTo` | src/schemy/Utils.Printer.cs:427-438 | the queue afterwards is `DropThrough(old queue, id)`; op identities stay distinct |
| `PrinterTypes.DropThrough` | src/schemy/Utils.Printer.cs:427-438 | what remains is always a suffix of the queue |
| `PrinterTypes.DropThroughSpec` | src/schemy/Utils.Printer.cs:429-437 | what remains is exactly the ops after the first occurrence of `id`, or nothing when `id` does not occur |
| `Stream.PrettyStream.PrintString` | src/schemy/Utils.Printer.cs:480 | the text is appended to the pending buffer |
| `Stream.PrettyStream.PrintChar` | src/schemy/Utils.Printer.cs:484 | the character is appended to the pending buffer |
| `Stream.PrettyStream.PrintObject` | src/schemy/Utils.Printer.cs:488-497 | an atom appends its token to the buffer. A list goes to the dispatch method, whose body is empty, so the buffer is unchanged |
| `Atoms.AtomText` | src/schemy/Utils.Printer.cs:490-496 | the token of each atom. It has no contract of its own; `ParseInvertsAtomText`, `AtomTextInjective` and `CharTokensCollideWithBooleans` state its properties |
| `Atoms.ParseInvertsAtomText` | src/schemy/Utils.Printer.cs:490-494 | the tokens for booleans, null, strings and every character except `t` and `f` read back as the same value |
| `Atoms.AtomTextInjective` | src/schemy/Utils.Printer.cs:490-494 | distinct atoms of those kinds get distinct tokens |
| `Atoms.CharTokensCollideWithBooleans` | src/schemy/Utils.Printer.cs:490-491 | the characters `t` and `f` print as `#t` and `#f`, the boolean tokens |
| `Stream.PrettyStream.PrintLogicalBlock` | src/schemy/Utils.Printer.cs:501-514 | a prefix together with a per-line prefix fails and changes nothing. Otherwise a fresh block over the list is pushed, with its cursor and all column fields 0. After the flushed text, a `BlockStart` with the prefix and suffix and then a `BlockEnd` with the suffix are queued, and `BlockStart.BlockEnd` is the identity of that `BlockEnd` |
| `Stream.PrettyStream.Current` | src/schemy/Utils.Printer.cs:312 | the current block is a block on the stack, the last one pushed (`Blocks.Last`) |
| `Stream.PrettyStream.PrintPop` | src/schemy/Utils.Printer.cs:523 | pops the current block: succeeds iff that block's list is not exhausted, and then returns its next element and consumes it. On failure the cursor does not move. A missing list gives `NullReference`, and an exhausted list gives `ArgumentNull` |
| `Stream.PrettyStream.IsListExhausted` | src/schemy/Utils.Printer.cs:527 | fails with `NullReference` iff the current block has no list. Otherwise it is true iff that block's cursor is at or past the end of its list, so false while elements remain |
| `Layout.CsRem` | src/schemy/Utils.Printer.cs:671 | C#'s truncating `%`. The remainder has the sign of the dividend and is smaller than the divisor in magnitude |
| `Layout.ComputeTabSizeAsWritten` | src/schemy/Utils.Printer.cs:661-685 | as written: fails, with `DivideByZero`, exactly for an absolute tab past `colnum + origin` with increment 0. A tab that passed `EnqueueTab`'s checks never gets a negative size. `RelativeTabAsWritten` and `AbsoluteTabAsWritten` give the sizes |
| `Layout.RelativeTabAsWritten` | src/schemy/Utils.Printer.cs:666-676 | as written, a relative tab with `colinc <= 1` is `colnum`. Otherwise `colnum <= result`, `(curentColumn + result) % colinc == 0`, and `result < colnum + colinc` whenever `colnum + curentColumn >= 0` |
| `Layout.AbsoluteTabAsWritten` | src/schemy/Utils.Printer.cs:661-684 | as written, with origin = section column for section tabs, else 0. At or before `colnum + origin` the tab lands exactly there. Past it, the size is 1 to `colinc` and `(curentColumn + result - origin) % colinc == 0`. With `colinc == 0` it throws `DivideByZero` |
| `Layout.ZeroIncrementDividesByZeroAsWritten` | src/schemy/Utils.Printer.cs:681-684 | a `Line` tab to 0 with increment 0 at column 1 divides by zero |
| `Layout.SectionRelativeIgnoresOriginAsWritten` | src/schemy/Utils.Printer.cs:663-676 | a section-relative tab aligns to the line, not to the section start |
| `Layout.ComputeTabSize` | src/schemy/Utils.Printer.cs:661-685 | repaired: never fails, and a well-formed tab never gets a negative size. `RelativeTabAligns` and `AbsoluteTabReaches` give the sizes |
| `Layout.RelativeTabAligns` | src/schemy/Utils.Printer.cs:666-676 | repaired: a relative tab is `colnum` when `colinc <= 1`. Otherwise it pads to the next multiple of `colinc` counted from the origin, by less than one increment beyond `colnum` |
| `Layout.AbsoluteTabReaches` | src/schemy/Utils.Printer.cs:677-684 | repaired: lands exactly on `colnum + origin` when at or before it. Past it, it pads nothing when `colinc == 0`, and otherwise 1 to `colinc` cells to a multiple of `colinc` from the origin |
| `Layout.RepairAgreesWithSource` | src/schemy/Utils.Printer.cs:661-685 | the repair changes no result the C# code returns for a tab that is not section-relative |
| `Layout.Available` | src/schemy/Utils.Printer.cs:893-898 | the width is `PrintRightMargin`, less `3 + SuffixLength` exactly when `!PrintReadably && PrintLines > 0 && PrintLines == LineNumber` |
| `Layout.IsFitsOnLine` | src/schemy/Utils.Printer.cs:891-907 | `Fits` iff a terminator is known and its column is within the available width. `DoNotKnow` iff no terminator is known, nothing forces a newline and the column is within the width. `DoesNotFit` in every other case |
| `Layout.ForcingSettlesOnlyTheUnknown` | src/schemy/Utils.Printer.cs:899-906 | forcing newlines never yields `DoNotKnow`; it changes only `DoNotKnow`, and only to `DoesNotFit` |
| `Layout.FitsUnderWiderMargin` | src/schemy/Utils.Printer.cs:893-900 | what fits under a right margin fits under any wider one |
| `Layout.LastLineOnlyNarrows` | src/schemy/Utils.Printer.cs:894-898 | with a non-negative suffix, what fits on the last permitted line fits on any other line |
| `Layout.IsMisering` | src/schemy/Utils.Printer.cs:882-885 | as documented at :143-147, never on when `PrintmiserWidth` is 0. Otherwise on exactly when the block starts at or right of column `PrintRightMargin - PrintmiserWidth` |
| `Layout.MiserPersistsRightward` | src/schemy/Utils.Printer.cs:884 | a block that starts further right stays in miser style |
| `Stream.GrownSize` | src/schemy/Utils.Printer.cs:946-948 | the grown prefix array holds the needed column and is at least twice the old length |
| `Stream.PrettyStream.SetIndentation` | src/schemy/Utils.Printer.cs:937-957 | the current block's `PrefixLength` becomes `max(column, PerLinePrefixEnd)`, and the prefix array holds at least that many cells. When it had to grow, a fresh array of `GrownSize` cells replaces it. Cells from the old `PrefixLength` up to the new one become spaces. Every other cell keeps its old content when the array did not grow. When it grew, every other cell is `'\0'`, the earlier prefix included, because the code's `Replace` copies nothing (see Findings) |
| `Stream.PrettyStream.ReallyEndLogicalBlock` | src/schemy/Utils.Printer.cs:963-971 | pops the current block. When another block remains, cells from the popped block's prefix length up to the bottom block's become spaces and nothing else changes. Popping the last block then fails with `NullReference`. So does an empty stack, which stays unchanged |
| `Lisp.Fill` | src/schemy/Utils.Printer.cs:979-983 | cells in `[start, end)` hold `item` and every other cell is untouched; an empty or reversed range changes nothing |
| `Lisp.CopyLoop` | src/schemy/Utils.Printer.cs:990-992 | exactly `quantity` cells from `start1` on receive the cells of `sequence2` from `start2` on; a quantity of 0 or less copies nothing. Every other cell is untouched |
| `Lisp.CopyCount` | src/schemy/Utils.Printer.cs:987-989 | the number copied is the shorter of the two ranges, with a negative end meaning the array's length |
| `Lisp.Replace` | src/schemy/Utils.Printer.cs:985-993 | repaired: exactly `CopyCount` cells from `start1` on receive the cells of `sequence2` from `start2` on. Every other cell is untouched |
| `Lisp.CopyCountAsWritten` | src/schemy/Utils.Printer.cs:987-989 | with `end2` given, the code's count equals the repaired `CopyCount`. With `end2` defaulted, the count is at most `-1 - start2` |
| `Lisp.ReplaceAsWritten` | src/schemy/Utils.Printer.cs:985-993 | the same copy with the count the C# code computes |
| `Lisp.DefaultEnd2CopiesNothingAsWritten` | src/schemy/Utils.Printer.cs:988-989 | as written, defaulting `end2` with `start2 >= 0` gives a negative count, so nothing is copied |
| `Lisp.PrefixCopyCount` | src/schemy/Utils.Printer.cs:950 | for the call in `SetIndentination`, the C# count is -1 and the repaired count is the whole current prefix |

## Findings

| source | as written | input that shows it | evidently intended | confidence | as-written member | corrected member |
|---|---|---|---|---|---|---|
| src/schemy/Utils.Printer.cs:681-684 | past its column, an absolute tab returns `cloinc - (curentColumn - origin) % cloinc` even when `cloinc` is 0, which `EnqueueTab` accepts | `Line` tab, `colnum` 0, `colinc` 0, at column 1: `DivideByZeroException` | no padding, as PPRINT-TAB (ANSI Common Lisp section 22.4) specifies for a zero increment | high; not executed | `Layout.ZeroIncrementDividesByZeroAsWritten` | `Layout.AbsoluteTabReaches` |
| src/schemy/Utils.Printer.cs:666-676 | a relative tab aligns `colnum + curentColumn`, never using the origin, so `SectionRelative` acts like `LineRelative`. The method's own summary (:452-453) says to count from the section start | `SectionRelative`, `colnum` 0, `colinc` 4, section at column 2, current column 3: pads 1 cell to column 4, 2 cells from the section start | pad to a multiple of 4 counted from the section start (3 cells, to column 6) | medium; not executed | `Layout.SectionRelativeIgnoresOriginAsWritten` | `Layout.RelativeTabAligns` |
| src/schemy/Utils.Printer.cs:988 | a defaulted `end2` assigns `end1 = sequence2.Length` and leaves `end2` at -1, so the count is negative | `SetIndentination`'s `Replace(newstring, Prefix, end1: n)`: count `min(n, -1)`, no cell copied, and the grown prefix loses its earlier text | `end2 = sequence2.Length`, copying the first `n` cells | high; not executed | `Lisp.DefaultEnd2CopiesNothingAsWritten` | `Lisp.Replace` |

`Stream.PrettyStream.SetIndentation` follows the code and calls `Lisp.ReplaceAsWritten`,
so a grown prefix array loses its earlier text. `Lisp.PrefixCopyCount` shows that the
repaired `Lisp.Replace` would copy the whole current prefix in that call.
`Layout.ComputeTabSize` is the repaired tab size. `Layout.ComputeTabSizeAsWritten` is the
C# code.

## Left out

- The sink: the `StreamWriter`, `Write(char, int)` and `Write(string)` (:860-879). Both
  writes have inverted guards. `ForcePrettyPrint` (:617-622) only flushes to them. The
  stream is built from a configuration value instead of a writer.
- `MaybeOuput` (:734-857) and `OutputLine` (:909-912): the loop `while (curent == null)`
  never walks a non-empty queue, and `OutputLine` is empty. No output committer is
  modelled, so `Column`, `LineNumber` and `Identination` stay as built.
- `ExpandTabs` (:689-725) and `IndexColumn` (:629-653): both use members that do not
  exist (`insertions`, `Pair`, `BufferStartColumn`, `PosN`, `posn2index`), so only their
  `ComputeTabSize` is modelled.
- `EnqueueNewLine` and `PrintNewLine` (:362-384, :476): the backward scan's `continue`
  (:374) never advances, so it loops forever on any op that is not a section start. It
  also stores a fresh `NewLine` instead of the one just queued. The `PenddingBlocks`
  list that gives the depth is never pushed to, and is left out with it.
- `PrintLinear`, `PrintFill` and `PrintTabular` (:548-613): they print `thislist[0]`
  rather than the popped item, and they depend on `EnqueueNewLine`.
- `PrintDispatched` and its dispatch table (:64, :536-539): the method is empty, so a
  list given to `PrintObject` prints nothing.
- `RealyStartLogicalBlock` (:914-929): it inserts with `AddFirst` while the current
  block is read from `Last`, so it has no consistent contract.
- Stream.PrettyStream.PrintLogicalBlock: the `method` delegate is not modelled. The
  model is the call with the default null delegate, so nothing is queued between
  `BlockStart` and `BlockEnd`.
- Stream.LogicalBlock.constructor: a list is a value here and cannot be null, so the
  constructor's `ArgumentNullException` for a null list is not modelled.
- Stream.PrettyStream.Current, Stream.PrettyStream.PrintPop,
  Stream.PrettyStream.IsListExhausted and Stream.PrettyStream.SetIndentation: these
  require a non-empty block stack. With an empty stack the C# code throws
  `NullReferenceException` when it dereferences `Blocks.Last` (:312). Its callers always
  have a block. `ReallyEndLogicalBlock` models both an empty stack (:317) and the
  empty-after-pop case (:967) as `NullReference`.
- Lisp.Fill: the requires excludes a non-empty range outside the array. With a
  non-negative `start`, C# would write the cells inside the array and then throw
  `IndexOutOfRangeException`. With a negative `start`, the first write (:982) throws
  and no cell is written. Every call site
  (:955, :970) passes a range inside the prefix array.
- Lisp.Replace: the requires excludes a copy that reaches outside either array. With
  non-negative `start1` and `start2`, C# would copy the cells inside and then throw
  `IndexOutOfRangeException`. With a negative start, the first access (:992) throws
  and no cell is written. The same holds
  for `Lisp.ReplaceAsWritten` and `Lisp.CopyLoop`. The only call site (:950) copies
  nothing as written, and stays in range with the repaired count.
- Lisp.Replace: the two arrays must be distinct. A self-overlapping copy is not
  modelled (the only caller copies into a new array). The same holds for
  `Lisp.ReplaceAsWritten`.
- Symbol names and `ToString()` results come from code outside this file. They are
  given as text in `Value`.
- The float `Mathf.Floor` in the growth size (:948) is the integer `(5 * (column - len)) / 4`.
  That value equals the float result when the difference is positive, which the guard
  ensures, and `5 * (column - len)` is below 2^24, so that the single-precision product
  is exact. Larger differences are not rounded as a `float` would round them.
- Integers are unbounded. C#'s 32-bit overflow of columns and sizes is not modelled.
- The Unity imports (:8-11) have no part in the printer.
