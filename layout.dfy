/** The pure layout decisions of the pretty stream: tab sizes (after the
    PPRINT-TAB function of ANSI Common Lisp, section 22.4), the fit test for a
    section and the miser-style test. */
module Layout {
  import opened Results
  import opened PrinterTypes

  /** C#'s `%` on `int`: truncating division, so the remainder takes the sign
      of the dividend (Dafny's own `%` is Euclidean). */
  function CsRem(a: int, b: int): (r: int)
    requires b != 0
    ensures a >= 0 ==> 0 <= r < (if b > 0 then b else -b)
    ensures a < 0 ==> -(if b > 0 then b else -b) < r <= 0
  {
    var m := if b > 0 then b else -b;
    if a >= 0 then a % m else -((-a) % m)
  }

  /** Taking away the C# remainder leaves a multiple of the divisor. */
  lemma CsRemLeavesMultiple(a: int, b: int)
    requires b > 0
    ensures (a - CsRem(a, b)) % b == 0
  {
    if a >= 0 {
      MultipleMod(a / b, b);
      assert a - a % b == (a / b) * b;
    } else {
      MultipleMod(-((-a) / b), b);
      assert a - CsRem(a, b) == -((-a) / b) * b;
    }
  }

  /** A multiple of a positive divisor leaves remainder 0. */
  lemma MultipleMod(k: int, b: int)
    requires b > 0
    ensures (k * b) % b == 0
  {
    var x := k * b;
    var q := x / b;
    var r := x % b;
    assert x == b * q + r;
    var d := k - q;
    assert d * b == r by { assert d * b == k * b - q * b; }
    if d >= 1 { ProductAtLeast(d, b); }
    else if d <= -1 { ProductAtLeast(-d, b); }
  }

  lemma ProductAtLeast(d: int, b: int)
    requires d >= 1 && b > 0
    ensures d * b >= b
  {
    assert d * b == (d - 1) * b + b;
    assert (d - 1) * b >= 0;
  }

  /** Adding the divisor to a multiple of it gives a multiple of it. */
  lemma ModAddDivisor(x: int, b: int)
    requires b > 0 && x % b == 0
    ensures (x + b) % b == 0
  {
    var q := x / b;
    assert x == q * b;
    assert x + b == (q + 1) * b;
    MultipleMod(q + 1, b);
  }

  // ---------------------------------------------------------------------------
  // ComputeTabSize

  /** `ComputeTabSize` as the C# code is written: a relative tab aligns the
      absolute column and ignores the section origin, and an absolute tab past
      its column with increment 0 divides by zero. */
  function ComputeTabSizeAsWritten(tab: Tab, sectionColumn: int, currentColumn: int): (r: Result<int>)
    ensures r.Failure? <==>
      !tab.isRelative && currentColumn > tab.colNum + (if tab.isSection then sectionColumn else 0) && tab.colInc == 0
    ensures r.Failure? ==> r.error == DivideByZero
    ensures WellFormedTab(tab) && r.Success? ==> r.value >= 0
  {
    var origin := if tab.isSection then sectionColumn else 0;
    if tab.isRelative then
      if tab.colInc > 1 && CsRem(tab.colNum + currentColumn, tab.colInc) != 0
      then Success(tab.colNum + (tab.colInc - CsRem(tab.colNum + currentColumn, tab.colInc)))
      else Success(tab.colNum)
    else if currentColumn <= tab.colNum + origin then
      Success(tab.colNum + origin - currentColumn)
    else if tab.colInc == 0 then
      Failure(DivideByZero)
    else
      Success(tab.colInc - CsRem(currentColumn - origin, tab.colInc))
  }

  /** A relative tab emits `colNum` spaces, then pads the absolute column to
      the next multiple of `colInc`, never by a whole increment or more. */
  lemma RelativeTabAsWritten(tab: Tab, sectionColumn: int, currentColumn: int)
    requires WellFormedTab(tab) && tab.isRelative
    ensures ComputeTabSizeAsWritten(tab, sectionColumn, currentColumn).Success?
    ensures var r := ComputeTabSizeAsWritten(tab, sectionColumn, currentColumn).value;
      && (tab.colInc <= 1 ==> r == tab.colNum)
      && (tab.colInc > 1 ==>
            && tab.colNum <= r
            && (currentColumn + r) % tab.colInc == 0
            && (currentColumn + tab.colNum >= 0 ==> r < tab.colNum + tab.colInc))
  {
    if tab.colInc > 1 {
      var a := tab.colNum + currentColumn;
      var rem := CsRem(a, tab.colInc);
      CsRemLeavesMultiple(a, tab.colInc);
      if rem != 0 {
        ModAddDivisor(a - rem, tab.colInc);
        assert currentColumn + (tab.colNum + (tab.colInc - rem)) == a - rem + tab.colInc;
      }
    }
  }

  /** An absolute tab that has not reached its column moves exactly to it;
      past it, it moves by 1 to `colInc` cells to a multiple of `colInc`
      counted from the origin, and with `colInc` 0 it fails. */
  lemma AbsoluteTabAsWritten(tab: Tab, sectionColumn: int, currentColumn: int)
    requires WellFormedTab(tab) && !tab.isRelative
    ensures var origin := if tab.isSection then sectionColumn else 0;
      var res := ComputeTabSizeAsWritten(tab, sectionColumn, currentColumn);
      && (currentColumn <= tab.colNum + origin ==>
            res.Success? && currentColumn + res.value == tab.colNum + origin)
      && (currentColumn > tab.colNum + origin && tab.colInc == 0 ==> res == Failure(DivideByZero))
      && (currentColumn > tab.colNum + origin && tab.colInc > 0 ==>
            && res.Success?
            && 1 <= res.value <= tab.colInc
            && (currentColumn + res.value - origin) % tab.colInc == 0)
  {
    var origin := if tab.isSection then sectionColumn else 0;
    if currentColumn > tab.colNum + origin && tab.colInc > 0 {
      var a := currentColumn - origin;
      CsRemLeavesMultiple(a, tab.colInc);
      ModAddDivisor(a - CsRem(a, tab.colInc), tab.colInc);
      assert currentColumn + (tab.colInc - CsRem(a, tab.colInc)) - origin == a - CsRem(a, tab.colInc) + tab.colInc;
    }
  }

  /** The input that shows the division by zero: `Line` tab to column 0 with
      increment 0, issued at column 1. */
  lemma ZeroIncrementDividesByZeroAsWritten()
    ensures ComputeTabSizeAsWritten(Tab(false, false, 0, 0), 0, 1) == Failure(DivideByZero)
  {
  }

  /** The input that shows a section-relative tab ignoring its section: in a
      section starting at column 2, an increment-4 tab at column 3 pads 1 cell
      to column 4, which is 2 cells from the section start, not a multiple of 4. */
  lemma SectionRelativeIgnoresOriginAsWritten()
    ensures ComputeTabSizeAsWritten(Tab(true, true, 0, 4), 2, 3) == Success(1)
    ensures (3 + 1 - 2) % 4 != 0
  {
  }

  /** Tab size with the two defects above repaired: relative tabs count from the
      section origin as the method's documentation says, and an increment of 0
      past the column pads nothing, as PPRINT-TAB specifies. */
  function ComputeTabSize(tab: Tab, sectionColumn: int, currentColumn: int): (r: int)
    ensures WellFormedTab(tab) ==> r >= 0
  {
    var origin := if tab.isSection then sectionColumn else 0;
    var position := currentColumn - origin;
    if tab.isRelative then
      if tab.colInc > 1 && CsRem(tab.colNum + position, tab.colInc) != 0
      then tab.colNum + (tab.colInc - CsRem(tab.colNum + position, tab.colInc))
      else tab.colNum
    else if currentColumn <= tab.colNum + origin then
      tab.colNum + origin - currentColumn
    else if tab.colInc == 0 then
      0
    else
      tab.colInc - CsRem(position, tab.colInc)
  }

  /** A relative tab emits `colNum` spaces, then pads to the next multiple of
      `colInc` counted from the origin (the section start for section tabs). */
  lemma RelativeTabAligns(tab: Tab, sectionColumn: int, currentColumn: int)
    requires WellFormedTab(tab) && tab.isRelative
    ensures var origin := if tab.isSection then sectionColumn else 0;
      var r := ComputeTabSize(tab, sectionColumn, currentColumn);
      && (tab.colInc <= 1 ==> r == tab.colNum)
      && (tab.colInc > 1 ==>
            && tab.colNum <= r
            && (currentColumn - origin + r) % tab.colInc == 0
            && (currentColumn - origin >= 0 ==> r < tab.colNum + tab.colInc))
  {
    var origin := if tab.isSection then sectionColumn else 0;
    if tab.colInc > 1 {
      var a := tab.colNum + (currentColumn - origin);
      var rem := CsRem(a, tab.colInc);
      CsRemLeavesMultiple(a, tab.colInc);
      if rem != 0 {
        ModAddDivisor(a - rem, tab.colInc);
        assert currentColumn - origin + (tab.colNum + (tab.colInc - rem)) == a - rem + tab.colInc;
      }
    }
  }

  /** An absolute tab reaches its column when it is ahead, pads nothing past it
      when the increment is 0, and otherwise moves by 1 to `colInc` cells to a
      multiple of `colInc` counted from the origin. */
  lemma AbsoluteTabReaches(tab: Tab, sectionColumn: int, currentColumn: int)
    requires WellFormedTab(tab) && !tab.isRelative
    ensures var origin := if tab.isSection then sectionColumn else 0;
      var r := ComputeTabSize(tab, sectionColumn, currentColumn);
      && (currentColumn <= tab.colNum + origin ==> currentColumn + r == tab.colNum + origin)
      && (currentColumn > tab.colNum + origin && tab.colInc == 0 ==> r == 0)
      && (currentColumn > tab.colNum + origin && tab.colInc > 0 ==>
            1 <= r <= tab.colInc && (currentColumn + r - origin) % tab.colInc == 0)
  {
    var origin := if tab.isSection then sectionColumn else 0;
    if currentColumn > tab.colNum + origin && tab.colInc > 0 {
      var a := currentColumn - origin;
      CsRemLeavesMultiple(a, tab.colInc);
      ModAddDivisor(a - CsRem(a, tab.colInc), tab.colInc);
      assert currentColumn + (tab.colInc - CsRem(a, tab.colInc)) - origin == a - CsRem(a, tab.colInc) + tab.colInc;
    }
  }

  /** The repair changes nothing else: wherever the C# code returns a size for
      a tab that is not section-relative, the repaired function returns it too. */
  lemma RepairAgreesWithSource(tab: Tab, sectionColumn: int, currentColumn: int)
    requires !(tab.isSection && tab.isRelative)
    requires ComputeTabSizeAsWritten(tab, sectionColumn, currentColumn).Success?
    ensures ComputeTabSize(tab, sectionColumn, currentColumn)
         == ComputeTabSizeAsWritten(tab, sectionColumn, currentColumn).value
  {
  }

  // ---------------------------------------------------------------------------
  // Fit test and miser style

  datatype FitsResult = Fits | DoesNotFit | DoNotKnow

  /** The width a section may use: the right margin, less room for " .." and
      the pending suffix when output is on the last line `lines` allows. */
  function Available(config: Config, lineNumber: int, suffixLength: int): (w: int)
    ensures suffixLength >= 0 ==> w <= config.rightMargin
    ensures (config.readably || config.lines <= 0 || config.lines != lineNumber) ==> w == config.rightMargin
    ensures (!config.readably && config.lines > 0 && config.lines == lineNumber) ==>
      w == config.rightMargin - 3 - suffixLength
  {
    var available := config.rightMargin;
    if !config.readably && config.lines > 0 && config.lines == lineNumber
    then available - 3 - suffixLength
    else available
  }

  /** Whether the section ended by `until` fits: its end column decides when it
      is known; otherwise a forced newline or a line already too long means it
      does not fit, and anything else is not yet known. */
  function IsFitsOnLine(config: Config, until: Option<QueuedOp>, forceNewlines: bool,
                        lineNumber: int, column: int, suffixLength: int): (r: FitsResult)
    ensures r == Fits <==> until.Some? && until.value.column <= Available(config, lineNumber, suffixLength)
    ensures r == DoNotKnow <==> until.None? && !forceNewlines && column <= Available(config, lineNumber, suffixLength)
  {
    var available := Available(config, lineNumber, suffixLength);
    if until.Some? then
      (if until.value.column <= available then Fits else DoesNotFit)
    else if forceNewlines then DoesNotFit
    else if column > available then DoesNotFit
    else DoNotKnow
  }

  /** Forcing newlines only settles the undecided case, and always as
      DoesNotFit. */
  lemma ForcingSettlesOnlyTheUnknown(config: Config, until: Option<QueuedOp>, lineNumber: int,
                                     column: int, suffixLength: int)
    ensures IsFitsOnLine(config, until, true, lineNumber, column, suffixLength) != DoNotKnow
    ensures IsFitsOnLine(config, until, false, lineNumber, column, suffixLength) != DoNotKnow ==>
      IsFitsOnLine(config, until, true, lineNumber, column, suffixLength)
        == IsFitsOnLine(config, until, false, lineNumber, column, suffixLength)
    ensures IsFitsOnLine(config, until, false, lineNumber, column, suffixLength) == DoNotKnow ==>
      IsFitsOnLine(config, until, true, lineNumber, column, suffixLength) == DoesNotFit
  {
  }

  /** A section that fits under a margin fits under every wider margin. */
  lemma FitsUnderWiderMargin(config: Config, margin: int, until: Option<QueuedOp>, forceNewlines: bool,
                             lineNumber: int, column: int, suffixLength: int)
    requires margin >= config.rightMargin
    requires IsFitsOnLine(config, until, forceNewlines, lineNumber, column, suffixLength) == Fits
    ensures IsFitsOnLine(config.(rightMargin := margin), until, forceNewlines, lineNumber, column, suffixLength) == Fits
  {
  }

  /** Reaching the last permitted line never lets a section fit that would not
      fit on an earlier line. */
  lemma LastLineOnlyNarrows(config: Config, until: Option<QueuedOp>, forceNewlines: bool,
                            lineNumber: int, otherLine: int, column: int, suffixLength: int)
    requires suffixLength >= 0 && otherLine != config.lines
    requires IsFitsOnLine(config, until, forceNewlines, lineNumber, column, suffixLength) == Fits
    ensures IsFitsOnLine(config, until, forceNewlines, otherLine, column, suffixLength) == Fits
  {
  }

  /** Miser style is on when it is enabled and the block has at most
      `miserWidth` columns left before the right margin. */
  function IsMisering(config: Config, blockStartColumn: int): (on: bool)
    ensures config.miserWidth == 0 ==> !on
    ensures config.miserWidth != 0 ==> (on <==> blockStartColumn >= config.rightMargin - config.miserWidth)
  {
    config.miserWidth != 0 && (config.rightMargin - blockStartColumn) <= config.miserWidth
  }

  /** A block that starts further right is no less cramped: once miser style
      holds for a block, it holds for every block starting at or right of it. */
  lemma MiserPersistsRightward(config: Config, startColumn: int, laterColumn: int)
    requires startColumn <= laterColumn
    requires IsMisering(config, startColumn)
    ensures IsMisering(config, laterColumn)
  {
  }
}
