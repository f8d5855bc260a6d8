/** How `PrintObject` renders the atoms it handles itself. */
module Atoms {
  import opened Results
  import opened PrinterTypes

  /** The text `PrintObject` appends for a value that is not a list. */
  function AtomText(x: Value): string
    requires !x.List?
  {
    match x
    case Bool(b) => if b then "#t" else "#f"
    case Char(c) => ['#', c]
    case Symbol(name) => name
    case Str(s) => "\"" + s + "\""
    case Null => "#<null>"
    case Other(text) => text
  }

  /** A reader for the tokens above: the independent definition the rendering
      is checked against. */
  function ParseToken(t: string): Option<Value>
  {
    if t == "#t" then Some(Bool(true))
    else if t == "#f" then Some(Bool(false))
    else if t == "#<null>" then Some(Null)
    else if |t| == 2 && t[0] == '#' then Some(Char(t[1]))
    else if |t| >= 2 && t[0] == '"' && t[|t| - 1] == '"' then Some(Str(t[1..|t| - 1]))
    else None
  }

  /** Booleans, null, strings and every character but `t` and `f` are printed
      so that the token reads back as the same value. Strings are quoted
      without escaping, which the round trip does not need. */
  lemma ParseInvertsAtomText(x: Value)
    requires x.Bool? || x.Null? || x.Str? || (x.Char? && x.c != 't' && x.c != 'f')
    ensures ParseToken(AtomText(x)) == Some(x)
  {
    if x.Str? {
      var t := AtomText(x);
      assert t[0] == '"' && t[|t| - 1] == '"';
      assert t[1..|t| - 1] == x.s;
    }
  }

  /** The character marker is `#` alone, so the characters `t` and `f` print
      exactly like the two booleans. */
  lemma CharTokensCollideWithBooleans()
    ensures AtomText(Char('t')) == AtomText(Bool(true))
    ensures AtomText(Char('f')) == AtomText(Bool(false))
  {
  }

  /** Apart from that collision, distinct atoms of these kinds print
      differently. */
  lemma AtomTextInjective(x: Value, y: Value)
    requires x.Bool? || x.Null? || x.Str? || (x.Char? && x.c != 't' && x.c != 'f')
    requires y.Bool? || y.Null? || y.Str? || (y.Char? && y.c != 't' && y.c != 'f')
    requires AtomText(x) == AtomText(y)
    ensures x == y
  {
    ParseInvertsAtomText(x);
    ParseInvertsAtomText(y);
  }
}
