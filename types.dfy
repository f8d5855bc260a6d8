/** The data of the pretty printer: its configuration, the values it prints and
    the operations it queues while layout decisions are still open. */
module PrinterTypes {
  import opened Results

  /** Size of the stream's prefix and suffix buffers when it is created. */
  const DefaultBufferSize: nat := 256

  datatype PrintCase = Default | Upcase | Downcase | Capitalize

  /** The printer control variables, which the C# code keeps in static fields,
      gathered into one explicit value. */
  datatype Config = Config(
    rightMargin: int,
    printArray: bool,
    printBase: bool,
    printCase: PrintCase,
    escape: bool,
    genSym: bool,
    level: int,
    length: int,
    lines: int,
    miserWidth: int,
    pretty: bool,
    readably: bool)

  /** The initial values of those static fields. */
  const DefaultConfig := Config(
    rightMargin := 80, printArray := true, printBase := true, printCase := Default,
    escape := true, genSym := true, level := 0, length := 0, lines := 0,
    miserWidth := 0, pretty := true, readably := false)

  /** The values the evaluator hands to the printer. `Other` is an object
      printed through its own textual form, given here as that text. */
  datatype Value =
    | Bool(b: bool)
    | Char(c: char)
    | Symbol(name: string)
    | Str(s: string)
    | Null
    | List(items: seq<Value>)
    | Other(text: string)

  datatype IndentKind = Block | Current

  datatype TabKind = Line | LineRelative | Section | SectionRelative

  datatype NewLineKind = Linear | Fill | Mandatory

  /** A tab directive: relative to the line or to the section, absolute or
      relative, with its column and increment. */
  datatype Tab = Tab(isSection: bool, isRelative: bool, colNum: int, colInc: int)

  /** The variants of a queued operation. A section end and a block end point
      at other operations by their identity. */
  datatype OpBody =
    | StringOp(str: string)
    | Indentation(kind: IndentKind, amount: int)
    | TabOp(tab: Tab)
    | NewLine(lineKind: NewLineKind, depth: int, sectionEnd: Option<nat>)
    | BlockStart(prefix: Option<string>, suffix: Option<string>, depth: int,
                 sectionEnd: Option<nat>, blockEnd: Option<nat>)
    | BlockEnd(endSuffix: Option<string>)

  /** A queued operation. The C# queue holds objects compared by reference;
      `id` stands for that object identity. `column` is the op's Column field. */
  datatype QueuedOp = QueuedOp(id: nat, column: int, body: OpBody)

  /** The flags a tab kind is stored as. */
  function TabFor(kind: TabKind, colNum: int, colInc: int): (tab: Tab)
    ensures tab.colNum == colNum && tab.colInc == colInc
    ensures (kind == Section || kind == SectionRelative) <==> tab.isSection
    ensures (kind == LineRelative || kind == SectionRelative) <==> tab.isRelative
  {
    match kind
    case Line => Tab(false, false, colNum, colInc)
    case LineRelative => Tab(false, true, colNum, colInc)
    case Section => Tab(true, false, colNum, colInc)
    case SectionRelative => Tab(true, true, colNum, colInc)
  }

  /** The kind a pair of flags stands for: the inverse of `TabFor`. */
  function KindOf(tab: Tab): TabKind
  {
    if tab.isSection then (if tab.isRelative then SectionRelative else Section)
    else (if tab.isRelative then LineRelative else Line)
  }

  /** Every kind has its own pair of flags, and every pair is some kind's. */
  lemma TabFlagsAreABijection(kind: TabKind, tab: Tab, colNum: int, colInc: int)
    ensures KindOf(TabFor(kind, colNum, colInc)) == kind
    ensures TabFor(KindOf(tab), tab.colNum, tab.colInc) == tab
    ensures TabFor(kind, colNum, colInc).colNum == colNum && TabFor(kind, colNum, colInc).colInc == colInc
  {
  }

  /** A tab that passed the argument checks of the stream. */
  predicate WellFormedTab(tab: Tab) { tab.colNum >= 0 && tab.colInc >= 0 }

  /** `ops` is what flushing the pending text `text` at column `col` adds to
      the queue: nothing when it is empty, else one text op at that column. */
  predicate Flushed(ops: seq<QueuedOp>, text: string, col: int)
  {
    if text == [] then ops == []
    else |ops| == 1 && ops[0].column == col && ops[0].body == StringOp(text)
  }

  /** The queue left when every op up to and including the first one with
      identity `id` is removed; empty when there is none. */
  function DropThrough(queue: seq<QueuedOp>, id: nat): (rest: seq<QueuedOp>)
    ensures |rest| <= |queue|
    ensures rest == queue[|queue| - |rest|..]
  {
    if queue == [] then []
    else if queue[0].id == id then queue[1..]
    else DropThrough(queue[1..], id)
  }

  /** `DropThrough` keeps exactly the ops after the first occurrence of `id`,
      or none when `id` does not occur. */
  lemma {:induction false} DropThroughSpec(queue: seq<QueuedOp>, id: nat)
    ensures (forall i :: 0 <= i < |queue| ==> queue[i].id != id) ==> DropThrough(queue, id) == []
    ensures forall k :: 0 <= k < |queue| && queue[k].id == id && (forall i :: 0 <= i < k ==> queue[i].id != id) ==>
      DropThrough(queue, id) == queue[k + 1..]
  {
    if queue != [] && queue[0].id != id {
      DropThroughSpec(queue[1..], id);
      forall k | 0 <= k < |queue| && queue[k].id == id && (forall i :: 0 <= i < k ==> queue[i].id != id)
        ensures DropThrough(queue, id) == queue[k + 1..]
      {
        assert k > 0;
        assert forall i :: 0 <= i < k - 1 ==> queue[1..][i].id != id by {
          forall i | 0 <= i < k - 1 ensures queue[1..][i].id != id { assert queue[1..][i] == queue[i + 1]; }
        }
        assert queue[1..][k - 1].id == id;
        assert queue[1..][k - 1 + 1..] == queue[k + 1..];
      }
      if forall i :: 0 <= i < |queue| ==> queue[i].id != id {
        assert forall i :: 0 <= i < |queue| - 1 ==> queue[1..][i].id != id by {
          forall i | 0 <= i < |queue| - 1 ensures queue[1..][i].id != id { assert queue[1..][i] == queue[i + 1]; }
        }
      }
    }
  }
}
