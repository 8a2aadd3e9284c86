/**
 * The indentation-aware text accumulator shared by every generator
 * (DudNet.Utilities.IndentedStringBuilder).
 *
 * A callback the source passes as Action<IIndentedStringBuilder> can only
 * call the builder's public operations, so it is modelled as the sequence
 * of those calls, a `seq<Cmd>`; `Render` says what text such a callback
 * adds at a given indentation level, and the builder's `Run` carries it out.
 */
module Utilities {
  import opened Text

  /** One call a callback makes on the builder. */
  datatype Cmd =
    | Line(line: string)          // AppendLine(string)
    | LineChar(character: char)   // AppendLine(char)
    | EndLine                     // AppendLine()
    | Char(character: char)       // Append(char)
    | Block(action: seq<Cmd>)     // BlockWrite(action)
    | Indented(action: seq<Cmd>)  // IndentedBlockWrite(action)

  /** A line as AppendLine writes it at the given level: indentation, text, newline. */
  function IndentedLine(c: char, level: nat, line: string): string
  {
    Repeat(c, level) + line + NewLine
  }

  /** The text that running `action` at indentation `level` appends. */
  function Render(c: char, level: nat, action: seq<Cmd>): string
    decreases action
  {
    if action == [] then "" else RenderCmd(c, level, action[0]) + Render(c, level, action[1..])
  }

  /** The text that one call appends at indentation `level`. */
  function RenderCmd(c: char, level: nat, cmd: Cmd): string
    decreases cmd
  {
    match cmd
    case Line(s) => IndentedLine(c, level, s)
    case LineChar(x) => IndentedLine(c, level, [x])
    case EndLine => NewLine
    case Char(x) => [x]
    case Block(a) => Render(c, level, a)
    case Indented(a) => Render(c, level + 1, a)
  }

  /** Running two callbacks one after the other appends their texts one after the other. */
  lemma {:induction false} RenderAppend(c: char, level: nat, a: seq<Cmd>, b: seq<Cmd>)
    ensures Render(c, level, a + b) == Render(c, level, a) + Render(c, level, b)
  {
    if a == [] {
      assert a + b == b;
    } else {
      assert (a + b)[0] == a[0];
      assert (a + b)[1..] == a[1..] + b;
      RenderAppend(c, level, a[1..], b);
    }
  }

  /** BlockWrite(a) inside a callback has exactly the effect of making a's calls directly. */
  lemma BlockIsTransparent(c: char, level: nat, before: seq<Cmd>, a: seq<Cmd>, after: seq<Cmd>)
    ensures Render(c, level, before + [Block(a)] + after) == Render(c, level, before + a + after)
  {
    RenderAppend(c, level, before + [Block(a)], after);
    RenderAppend(c, level, before, [Block(a)]);
    RenderAppend(c, level, before + a, after);
    RenderAppend(c, level, before, a);
  }

  /**
   * A line written directly inside IndentedBlockWrite carries one more
   * indentation character than the same line written outside it.
   */
  lemma IndentedLineIsDeeper(c: char, level: nat, before: seq<Cmd>, s: string, after: seq<Cmd>)
    ensures Render(c, level, [Indented(before + [Line(s)] + after)])
         == Render(c, level + 1, before) + Repeat(c, level + 1) + s + NewLine + Render(c, level + 1, after)
    ensures Render(c, level, before + [Line(s)] + after)
         == Render(c, level, before) + Repeat(c, level) + s + NewLine + Render(c, level, after)
    ensures |Repeat(c, level + 1)| == |Repeat(c, level)| + 1
  {
    var inner := before + [Line(s)] + after;
    assert Render(c, level, [Indented(inner)]) == Render(c, level + 1, inner);
    RenderAppend(c, level + 1, before + [Line(s)], after);
    RenderAppend(c, level + 1, before, [Line(s)]);
    RenderAppend(c, level, before + [Line(s)], after);
    RenderAppend(c, level, before, [Line(s)]);
  }

  class IndentedStringBuilder {
    /** _indentationChar */
    const indentChar: char
    /** _stringBuilder */
    var buf: string
    /** _indentationLevel */
    var level: nat
    /** _indentationString */
    var indent: string

    /** The cached indentation string always matches the level. */
    ghost predicate Valid()
      reads this
    {
      indent == Repeat(indentChar, level)
    }

    constructor (indentationChar: char := '\t', startingIndentation: nat := 0)
      ensures Valid()
      ensures indentChar == indentationChar && level == startingIndentation
      ensures buf == []
    {
      indentChar := indentationChar;
      buf := [];
      level := startingIndentation;
      indent := Repeat(indentationChar, startingIndentation);
    }

    /** The indentation string for the current level: the indentation character, level times. */
    function GenerateIndentationString(): (r: string)
      reads this
      ensures |r| == level
      ensures forall k :: 0 <= k < |r| ==> r[k] == indentChar
    {
      RepeatIsConstant(indentChar, level);
      Repeat(indentChar, level)
    }

    method IncrementIndentation(amount: nat := 1)
      requires Valid()
      modifies this
      ensures Valid()
      ensures level == old(level) + amount && buf == old(buf)
    {
      level := level + amount;
      indent := GenerateIndentationString();
    }

    /** Lowering the level clamps at zero. */
    method DecrementIndentation(amount: nat := 1)
      requires Valid()
      modifies this
      ensures Valid()
      ensures level == if old(level) >= amount then old(level) - amount else 0
      ensures buf == old(buf)
    {
      level := if level >= amount then level - amount else 0;
      indent := GenerateIndentationString();
    }

    /** Append(char): the character alone, without indentation. */
    method Append(character: char)
      requires Valid()
      modifies this
      ensures Valid() && level == old(level)
      ensures buf == old(buf) + [character]
    {
      buf := buf + [character];
    }

    /** AppendLine(): a bare newline, without indentation. */
    method AppendNewLine()
      requires Valid()
      modifies this
      ensures Valid() && level == old(level)
      ensures buf == old(buf) + NewLine
    {
      buf := buf + NewLine;
    }

    /** AppendLine(char): indentation, the character, newline. */
    method AppendLineChar(character: char)
      requires Valid()
      modifies this
      ensures Valid() && level == old(level)
      ensures buf == old(buf) + IndentedLine(indentChar, level, [character])
    {
      buf := buf + (indent + [character] + NewLine);
    }

    /** AppendLine(string): indentation, the line, newline. */
    method AppendLine(line: string)
      requires Valid()
      modifies this
      ensures Valid() && level == old(level)
      ensures buf == old(buf) + IndentedLine(indentChar, level, line)
    {
      buf := buf + (indent + line + NewLine);
    }

    /** BlockWrite(action): runs the callback at the current level. */
    method BlockWrite(action: seq<Cmd>)
      requires Valid()
      modifies this
      ensures Valid() && level == old(level)
      ensures buf == old(buf) + Render(indentChar, old(level), action)
      decreases action, 1
    {
      Run(action);
    }

    /** IndentedBlockWrite(action): runs the callback one level deeper, then restores the level. */
    method IndentedBlockWrite(action: seq<Cmd>)
      requires Valid()
      modifies this
      ensures Valid() && level == old(level)
      ensures buf == old(buf) + Render(indentChar, old(level) + 1, action)
      decreases action, 1
    {
      IncrementIndentation();
      Run(action);
      DecrementIndentation();
    }

    /** Invokes a callback on this builder: makes its calls in order. */
    method Run(action: seq<Cmd>)
      requires Valid()
      modifies this
      ensures Valid() && level == old(level)
      ensures buf == old(buf) + Render(indentChar, old(level), action)
      decreases action, 0
    {
      var i := 0;
      while i < |action|
        invariant 0 <= i <= |action|
        invariant Valid() && level == old(level)
        invariant buf == old(buf) + Render(indentChar, level, action[..i])
      {
        RenderAppend(indentChar, level, action[..i], [action[i]]);
        assert action[..i + 1] == action[..i] + [action[i]];
        assert Render(indentChar, level, [action[i]]) == RenderCmd(indentChar, level, action[i]);
        RunCmd(action[i]);
        i := i + 1;
      }
      assert action[..|action|] == action;
    }

    /** Makes one call on this builder. */
    method RunCmd(cmd: Cmd)
      requires Valid()
      modifies this
      ensures Valid() && level == old(level)
      ensures buf == old(buf) + RenderCmd(indentChar, old(level), cmd)
      decreases cmd
    {
      match cmd
      case Line(s) => AppendLine(s);
      case LineChar(x) => AppendLineChar(x);
      case EndLine => AppendNewLine();
      case Char(x) => Append(x);
      case Block(a) => BlockWrite(a);
      case Indented(a) => IndentedBlockWrite(a);
    }

    /** ToString(): the text accumulated so far. */
    method ToString() returns (r: string)
      ensures r == buf
    {
      r := buf;
    }
  }
}
