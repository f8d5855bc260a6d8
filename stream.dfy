/** The logical-block cursor and the pretty stream's queue, block stack and
    prefix buffer. */
module Stream {
  import opened Results
  import opened PrinterTypes
  import opened Atoms
  import Lisp

  // ===========================================================================
  // Logical block

  /** A nested formatting scope. Its column fields are laid out by the output
      side of the stream; the cursor over `list` is what rendering code pops. */
  class LogicalBlock {
    var startColumn: int
    var sectionColumn: int
    var sectionStartLine: int
    var perLinePrefixEnd: int
    var prefixLength: int
    var suffixLength: int
    var listIndex: nat
    /** The bound list; `None` for the block made without one (C# null). */
    const list: Option<seq<Value>>

    /** The cursor never passes the end of its list. */
    ghost predicate Valid()
      reads this
    {
      match list
      case None => listIndex == 0
      case Some(l) => listIndex <= |l|
    }

    /** The elements not popped yet. */
    ghost function Remaining(): seq<Value>
      reads this
      requires Valid()
    {
      if list.None? then [] else list.value[listIndex..]
    }

    /** The block without a list, used as the root of the stack. */
    constructor Root()
      ensures Valid() && list == None && listIndex == 0
      ensures startColumn == 0 && sectionColumn == 0 && sectionStartLine == 0
      ensures perLinePrefixEnd == 0 && prefixLength == 0 && suffixLength == 0
    {
      startColumn, sectionColumn, sectionStartLine := 0, 0, 0;
      perLinePrefixEnd, prefixLength, suffixLength := 0, 0, 0;
      listIndex := 0;
      list := None;
    }

    /** A block bound to `l`, its cursor at the first element. */
    constructor (l: seq<Value>)
      ensures Valid() && list == Some(l) && listIndex == 0 && Remaining() == l
      ensures startColumn == 0 && sectionColumn == 0 && sectionStartLine == 0
      ensures perLinePrefixEnd == 0 && prefixLength == 0 && suffixLength == 0
    {
      startColumn, sectionColumn, sectionStartLine := 0, 0, 0;
      perLinePrefixEnd, prefixLength, suffixLength := 0, 0, 0;
      listIndex := 0;
      list := Some(l);
    }

    /** Whether every element has been popped; reading the count of a missing
        list fails. */
    function IsListExhausted(): (r: Result<bool>)
      reads this
      ensures r.Failure? <==> list.None?
      ensures r.Failure? ==> r.error == NullReference
      ensures r == Success(true) <==> list.Some? && listIndex >= |list.value|
    {
      if list.None? then Failure(NullReference) else Success(listIndex >= |list.value|)
    }

    /** Returns the element under the cursor and advances it by one; fails,
        moving nothing, when the list is exhausted or missing. */
    method PrintPop() returns (r: Result<Value>)
      requires Valid()
      modifies this`listIndex
      ensures Valid()
      ensures r.Success? <==> old(IsListExhausted()) == Success(false)
      ensures r.Success? ==>
        && r.value == old(Remaining())[0]
        && listIndex == old(listIndex) + 1
        && Remaining() == old(Remaining())[1..]
      ensures r.Failure? ==> listIndex == old(listIndex)
      ensures list.None? ==> r == Failure(NullReference)
      ensures list.Some? && old(listIndex) >= |list.value| ==> r == Failure(ArgumentNull)
    {
      if list.None? {
        return Failure(NullReference);
      }
      if listIndex < |list.value| {
        r := Success(list.value[listIndex]);
        listIndex := listIndex + 1;
        return;
      }
      r := Failure(ArgumentNull);
    }
  }

  // ===========================================================================
  // Pretty stream

  /** Size a prefix buffer of `length` cells grows to when `column` cells are
      needed: twice as large, or a quarter more than needed beyond it. */
  function GrownSize(length: nat, column: nat): (size: nat)
    requires column > length
    ensures size >= column
    ensures size >= 2 * length
  {
    Max(length * 2, length + (5 * (column - length)) / 4)
  }

  class PrettyStream {
    const config: Config
    /** Text printed but not yet queued. */
    var buffer: string
    /** Operations waiting for their layout to be decided, oldest first. */
    var queue: seq<QueuedOp>
    /** The logical block stack; the current block is the last one. */
    var blocks: seq<LogicalBlock>
    var column: int
    var lineNumber: int
    var indentation: int
    /** The per-line prefix; each block's `prefixLength` cells of it are used. */
    var prefix: array<char>
    var suffix: array<char>
    /** The identity the next new operation gets. */
    var nextId: nat

    ghost predicate Valid()
      reads this, blocks
    {
      && (forall i, j :: 0 <= i < j < |queue| ==> queue[i].id != queue[j].id)
      && (forall i :: 0 <= i < |queue| ==> queue[i].id < nextId)
      && (forall i, j :: 0 <= i < j < |blocks| ==> blocks[i] != blocks[j])
      && (forall i :: 0 <= i < |blocks| ==> blocks[i].Valid())
      && (forall i :: 0 <= i < |blocks| ==> 0 <= blocks[i].perLinePrefixEnd)
      && (forall i :: 0 <= i < |blocks| ==> 0 <= blocks[i].prefixLength <= prefix.Length)
    }

    /** The current logical block. */
    function Current(): (b: LogicalBlock)
      reads this
      requires |blocks| > 0
      ensures b in blocks
    {
      blocks[|blocks| - 1]
    }

    constructor (config: Config)
      ensures Valid() && this.config == config
      ensures buffer == [] && queue == [] && nextId == 0
      ensures |blocks| == 1 && fresh(blocks[0]) && blocks[0].list == None && blocks[0].listIndex == 0
      ensures blocks[0].startColumn == 0 && blocks[0].sectionColumn == 0 && blocks[0].sectionStartLine == 0
      ensures blocks[0].perLinePrefixEnd == 0 && blocks[0].prefixLength == 0 && blocks[0].suffixLength == 0
      ensures column == 0 && lineNumber == 0 && indentation == 0
      ensures fresh(prefix) && prefix.Length == DefaultBufferSize
      ensures fresh(suffix) && suffix.Length == DefaultBufferSize
      ensures forall i :: 0 <= i < prefix.Length ==> prefix[i] == '\0'
      ensures forall i :: 0 <= i < suffix.Length ==> suffix[i] == '\0'
    {
      this.config := config;
      buffer, queue, nextId := [], [], 0;
      column, lineNumber, indentation := 0, 0, 0;
      prefix := new char[DefaultBufferSize](_ => '\0');
      suffix := new char[DefaultBufferSize](_ => '\0');
      var root := new LogicalBlock.Root();
      blocks := [root];
    }

    /** A new identity for an operation about to be created. */
    method FreshId() returns (id: nat)
      requires Valid()
      modifies this`nextId
      ensures Valid()
      ensures id == old(nextId) && nextId == id + 1
    {
      id := nextId;
      nextId := nextId + 1;
    }

    // -------------------------------------------------------------------------
    // The pending operation queue

    /** Queues `op`, first turning pending text into a text op stamped with the
        current column. Earlier entries stay as they were. */
    method Enqueue(op: QueuedOp)
      requires Valid()
      requires op.id < nextId && forall i :: 0 <= i < |queue| ==> queue[i].id != op.id
      modifies this`queue, this`buffer, this`nextId
      ensures Valid()
      ensures buffer == []
      ensures |queue| >= |old(queue)| + 1
      ensures queue[..|old(queue)|] == old(queue)
      ensures queue[|queue| - 1] == op
      ensures Flushed(queue[|old(queue)|..|queue| - 1], old(buffer), column)
      ensures forall i :: |old(queue)| <= i < |queue| - 1 ==> queue[i].id >= old(nextId)
    {
      if |buffer| > 0 {
        var text := QueuedOp(nextId, column, StringOp(buffer));
        nextId := nextId + 1;
        queue := queue + [text];
      }
      queue := queue + [op];
      buffer := [];
    }

    /** Queues an indentation directive. */
    method EnqueueIndent(kind: IndentKind, amount: int)
      requires Valid()
      modifies this`queue, this`buffer, this`nextId
      ensures Valid()
      ensures buffer == []
      ensures |queue| >= |old(queue)| + 1
      ensures queue[..|old(queue)|] == old(queue)
      ensures queue[|queue| - 1].body == Indentation(kind, amount) && queue[|queue| - 1].column == 0
      ensures Flushed(queue[|old(queue)|..|queue| - 1], old(buffer), column)
    {
      var id := FreshId();
      Enqueue(QueuedOp(id, 0, Indentation(kind, amount)));
    }

    /** Queues a tab directive after checking its arguments; a negative column
        or increment is refused and leaves the stream as it was. */
    method EnqueueTab(kind: TabKind, colnum: int, colinc: int) returns (r: Outcome)
      requires Valid()
      modifies this`queue, this`buffer, this`nextId
      ensures Valid()
      ensures colnum < 0 ==> r == Fail(ArgumentOutOfRange("colnum"))
      ensures colnum >= 0 && colinc < 0 ==> r == Fail(ArgumentOutOfRange("colinc"))
      ensures r.Fail? ==> queue == old(queue) && buffer == old(buffer)
      ensures colnum >= 0 && colinc >= 0 ==>
        && r == Pass
        && buffer == []
        && |queue| >= |old(queue)| + 1
        && queue[..|old(queue)|] == old(queue)
        && queue[|queue| - 1].body == TabOp(TabFor(kind, colnum, colinc))
        && queue[|queue| - 1].column == 0
        && WellFormedTab(queue[|queue| - 1].body.tab)
        && Flushed(queue[|old(queue)|..|queue| - 1], old(buffer), column)
    {
      if colnum < 0 {
        return Fail(ArgumentOutOfRange("colnum"));
      }
      if colinc < 0 {
        return Fail(ArgumentOutOfRange("colinc"));
      }
      var id := FreshId();
      Enqueue(QueuedOp(id, 0, TabOp(TabFor(kind, colnum, colinc))));
      r := Pass;
    }

    /** Removes queue entries from the front up to and including the op with
        identity `id`; the whole queue when there is none. */
    method DequeueUpTo(id: nat)
      requires Valid()
      modifies this`queue
      ensures Valid()
      ensures queue == DropThrough(old(queue), id)
    {
      while |queue| > 0
        invariant Valid()
        invariant DropThrough(queue, id) == DropThrough(old(queue), id)
        decreases |queue|
      {
        var current := queue[0];
        queue := queue[1..];
        if current.id == id {
          return;
        }
      }
    }

    // -------------------------------------------------------------------------
    // Printing

    /** Appends text to the pending buffer. */
    method PrintString(s: string)
      modifies this`buffer
      ensures buffer == old(buffer) + s
    {
      buffer := buffer + s;
    }

    /** Appends one character to the pending buffer. */
    method PrintChar(c: char)
      modifies this`buffer
      ensures buffer == old(buffer) + [c]
    {
      buffer := buffer + [c];
    }

    /** Appends the text of an atom; a list goes to the dispatch table, which
        prints nothing. */
    method PrintObject(x: Value)
      modifies this`buffer
      ensures x.List? ==> buffer == old(buffer)
      ensures !x.List? ==> buffer == old(buffer) + AtomText(x)
    {
      if !x.List? {
        PrintString(AtomText(x));
      }
    }

    /** Opens a logical block over `list`: refuses a prefix together with a
        per-line prefix, else pushes a block whose cursor is at the start of
        `list` and queues its start and then its end, the start pointing at
        that end. */
    method PrintLogicalBlock(list: seq<Value>, prefix: Option<string>, suffix: Option<string>,
                             linePrefix: Option<string>) returns (r: Outcome)
      requires Valid()
      modifies this`blocks, this`queue, this`buffer, this`nextId
      ensures Valid()
      ensures prefix.Some? && linePrefix.Some? ==>
        && r == Fail(ArgumentOutOfRange("Cannot specify both a prefix and a per-line-prefix."))
        && blocks == old(blocks) && queue == old(queue) && buffer == old(buffer)
      ensures !(prefix.Some? && linePrefix.Some?) ==>
        && r == Pass
        && buffer == []
        && |blocks| == |old(blocks)| + 1
        && blocks[..|old(blocks)|] == old(blocks)
        && fresh(Current()) && Current().list == Some(list) && Current().Remaining() == list
        && Current().startColumn == 0 && Current().sectionColumn == 0 && Current().sectionStartLine == 0
        && Current().perLinePrefixEnd == 0 && Current().prefixLength == 0 && Current().suffixLength == 0
        && |queue| >= |old(queue)| + 2
        && queue[..|old(queue)|] == old(queue)
        && Flushed(queue[|old(queue)|..|queue| - 2], old(buffer), column)
        && queue[|queue| - 2].body == BlockStart(prefix, suffix, 0, None, Some(queue[|queue| - 1].id))
        && queue[|queue| - 1].body == BlockEnd(suffix)
        && queue[|queue| - 2].column == 0 && queue[|queue| - 1].column == 0
    {
      if prefix.Some? && linePrefix.Some? {
        return Fail(ArgumentOutOfRange("Cannot specify both a prefix and a per-line-prefix."));
      }
      var block := new LogicalBlock(list);
      blocks := blocks + [block];
      var endId := FreshId();
      var startId := FreshId();
      var blockEnd := QueuedOp(endId, 0, BlockEnd(suffix));
      var blockStart := QueuedOp(startId, 0, BlockStart(prefix, suffix, 0, None, Some(endId)));
      Enqueue(blockStart);
      ghost var afterStart := queue;
      Enqueue(blockEnd);
      assert queue == afterStart + [blockEnd];
      r := Pass;
    }

    /** Pops from the current block. */
    method PrintPop() returns (r: Result<Value>)
      requires Valid() && |blocks| > 0
      modifies Current()`listIndex
      ensures Valid()
      ensures r.Success? <==> old(Current().IsListExhausted()) == Success(false)
      ensures r.Success? ==>
        r.value == old(Current().Remaining())[0] && Current().Remaining() == old(Current().Remaining())[1..]
      ensures r.Failure? ==> Current().listIndex == old(Current().listIndex)
      ensures Current().list.None? ==> r == Failure(NullReference)
      ensures Current().list.Some? && old(Current().listIndex) >= |Current().list.value| ==> r == Failure(ArgumentNull)
    {
      r := Current().PrintPop();
    }

    /** Whether the current block's list is used up. */
    function IsListExhausted(): (r: Result<bool>)
      reads this, blocks
      requires |blocks| > 0
      ensures r.Failure? <==> Current().list.None?
      ensures r.Failure? ==> r.error == NullReference
      ensures r == Success(true) <==> Current().list.Some? && Current().listIndex >= |Current().list.value|
    {
      Current().IsListExhausted()
    }

    // -------------------------------------------------------------------------
    // Prefix buffer

    /** Sets the current block's prefix length to `column`, but not below its
        per-line prefix, growing the prefix buffer when it is too short and
        filling the cells the prefix gains with spaces. The copy into a grown
        buffer is REPLACE as the C# code writes it, which copies nothing, so a
        grown buffer starts out all '\0'. */
    method SetIndentation(column: int)
      requires Valid() && |blocks| > 0
      modifies this`prefix, prefix, Current()`prefixLength
      ensures Valid()
      ensures blocks == old(blocks)
      ensures var c := Max(column, old(Current().perLinePrefixEnd));
        && Current().prefixLength == c
        && prefix.Length >= c
        && (c > old(prefix.Length) ==> fresh(prefix) && prefix.Length == GrownSize(old(prefix.Length), c))
        && (c <= old(prefix.Length) ==> prefix == old(prefix))
        && (forall i :: old(Current().prefixLength) <= i < c ==> prefix[i] == ' ')
        && (forall i :: 0 <= i < old(Current().prefixLength) ==>
              prefix[i] == if c > old(prefix.Length) then '\0' else old(prefix[i]))
        && (forall i :: Max(c, old(Current().prefixLength)) <= i < prefix.Length ==>
              prefix[i] == if c > old(prefix.Length) then '\0' else old(prefix[i]))
    {
      var block := Current();
      var blockPrefixLength := block.prefixLength;
      var c := Max(column, block.perLinePrefixEnd);
      if c > prefix.Length {
        var size := GrownSize(prefix.Length, c);
        var grown := new char[size](_ => '\0');
        Lisp.ReplaceAsWritten(grown, prefix, end1 := blockPrefixLength);
        prefix := grown;
      }
      if c > blockPrefixLength {
        Lisp.Fill(prefix, ' ', blockPrefixLength, c);
      }
      block.prefixLength := c;
    }

    /** Pops the current block and re-extends the prefix with spaces up to the
        prefix length of the block at the bottom of the stack, which the C#
        code reads as the block now in effect. With nothing left below the
        popped block that read fails, and so does the pop itself on an empty
        stack. */
    method ReallyEndLogicalBlock() returns (r: Outcome)
      requires Valid()
      modifies this`blocks, prefix
      ensures Valid()
      ensures |old(blocks)| == 0 ==> r == Fail(NullReference) && blocks == old(blocks) && prefix[..] == old(prefix[..])
      ensures |old(blocks)| > 0 ==> blocks == old(blocks)[..|old(blocks)| - 1]
      ensures |old(blocks)| == 1 ==> r == Fail(NullReference) && prefix[..] == old(prefix[..])
      ensures |old(blocks)| > 1 ==> r == Pass
      ensures |old(blocks)| > 1 ==> forall i :: 0 <= i < prefix.Length ==>
        prefix[i] == if old(Current().prefixLength) <= i < old(blocks[0].prefixLength) then ' ' else old(prefix[i])
    {
      if |blocks| == 0 {
        return Fail(NullReference);
      }
      var oldBlock := Current();
      blocks := blocks[..|blocks| - 1];
      var oldIndent := oldBlock.prefixLength;
      if |blocks| == 0 {
        return Fail(NullReference);
      }
      var newIndent := blocks[0].prefixLength;
      if newIndent > oldIndent {
        Lisp.Fill(prefix, ' ', oldIndent, newIndent);
      }
      r := Pass;
    }
  }
}
