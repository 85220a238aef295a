/**
 Generated code as the generator writes it, line by line with an indentation,
 and the reading of such lines. Reading what was written gives the code back.
 */
module GeneratedText {
  import opened Outcomes
  import opened TransferTypes
  import opened GeneratedCode

  datatype Token =
    | AssignLine(target: Target, rhs: Rhs)
    | IfLine(cond: Cond)
    | ElifLine(cond: Cond)
    | ElseLine
    | TryLine
    | ExceptLine(caught: Error)
    | PassLine

  datatype Line = Line(indent: nat, token: Token)

  function Print(block: seq<Stmt>, indent: nat): seq<Line>
    decreases block, 1
  {
    if block == [] then [] else PrintStmt(block[0], indent) + Print(block[1..], indent)
  }

  function PrintStmt(s: Stmt, indent: nat): seq<Line>
    decreases s, 0
  {
    match s
    case Assign(target, rhs) => [Line(indent, AssignLine(target, rhs))]
    case If(arms, orelse) => PrintArms(arms, indent, true) + PrintElse(orelse, indent)
    case TryPass(caught, body) =>
      [Line(indent, TryLine)] + Print(body, indent + 1)
      + [Line(indent, ExceptLine(caught)), Line(indent + 1, PassLine)]
  }

  function PrintArms(arms: seq<Arm>, indent: nat, first: bool): seq<Line>
    decreases arms, 2
  {
    if arms == [] then []
    else
      [Line(indent, if first then IfLine(arms[0].cond) else ElifLine(arms[0].cond))]
      + Print(arms[0].body, indent + 1) + PrintArms(arms[1..], indent, false)
  }

  function PrintElse(orelse: seq<Stmt>, indent: nat): seq<Line>
    decreases orelse, 2
  {
    if orelse == [] then [] else [Line(indent, ElseLine)] + Print(orelse, indent + 1)
  }

  lemma {:induction false} PrintConcat(a: seq<Stmt>, b: seq<Stmt>, indent: nat)
    ensures Print(a + b, indent) == Print(a, indent) + Print(b, indent)
    decreases |a|
  {
    if a == [] {
      assert a + b == b;
    } else {
      assert (a + b)[0] == a[0] && (a + b)[1..] == a[1..] + b;
      PrintConcat(a[1..], b, indent);
    }
  }

  // ----- reading -----

  datatype Parsed<T> = Parsed(value: T, rest: seq<Line>)

  predicate At(lines: seq<Line>, indent: nat) {
    lines != [] && lines[0].indent == indent
  }

  function Parse(lines: seq<Line>, indent: nat): (p: Parsed<seq<Stmt>>)
    ensures |p.rest| <= |lines|
    decreases |lines|, 0
  {
    if !At(lines, indent) then Parsed([], lines)
    else
      match lines[0].token
      case AssignLine(target, rhs) => ParseOn(Parsed(Assign(target, rhs), lines[1..]), indent)
      case IfLine(cond) =>
        var body := Parse(lines[1..], indent + 1);
        var elifs := ParseElifs(body.rest, indent);
        var orelse := ParseElse(elifs.rest, indent);
        ParseOn(Parsed(If([Arm(cond, body.value)] + elifs.value, orelse.value), orelse.rest), indent)
      case TryLine =>
        var body := Parse(lines[1..], indent + 1);
        if At(body.rest, indent) && body.rest[0].token.ExceptLine? && At(body.rest[1..], indent + 1)
           && body.rest[1].token == PassLine
        then ParseOn(Parsed(TryPass(body.rest[0].token.caught, body.value), body.rest[2..]), indent)
        else Parsed([], lines)
      case _ => Parsed([], lines)
  }

  /** The statements after `s`. */
  function ParseOn(s: Parsed<Stmt>, indent: nat): (p: Parsed<seq<Stmt>>)
    ensures |p.rest| <= |s.rest|
    decreases |s.rest|, 1
  {
    var tail := Parse(s.rest, indent);
    Parsed([s.value] + tail.value, tail.rest)
  }

  function ParseElifs(lines: seq<Line>, indent: nat): (p: Parsed<seq<Arm>>)
    ensures |p.rest| <= |lines|
    decreases |lines|, 0
  {
    if At(lines, indent) && lines[0].token.ElifLine? then
      var body := Parse(lines[1..], indent + 1);
      var others := ParseElifs(body.rest, indent);
      Parsed([Arm(lines[0].token.cond, body.value)] + others.value, others.rest)
    else Parsed([], lines)
  }

  function ParseElse(lines: seq<Line>, indent: nat): (p: Parsed<seq<Stmt>>)
    ensures |p.rest| <= |lines|
    decreases |lines|, 2
  {
    if At(lines, indent) && lines[0].token == ElseLine then Parse(lines[1..], indent + 1)
    else Parsed([], lines)
  }

  // ----- reading what was written -----

  /** Python accepts the code: every `if` has a test, and no block is empty. */
  predicate WellFormed(block: seq<Stmt>)
    decreases block, 1
  {
    block != [] ==> WellFormedStmt(block[0]) && WellFormed(block[1..])
  }

  predicate WellFormedStmt(s: Stmt)
    decreases s, 0
  {
    match s
    case Assign(_, _) => true
    case If(arms, orelse) => arms != [] && WellFormedArms(arms) && WellFormed(orelse)
    case TryPass(_, body) => body != [] && WellFormed(body)
  }

  predicate WellFormedArms(arms: seq<Arm>)
    decreases arms, 2
  {
    arms != [] ==> arms[0].body != [] && WellFormed(arms[0].body) && WellFormedArms(arms[1..])
  }

  lemma {:induction false} WellFormedConcat(a: seq<Stmt>, b: seq<Stmt>)
    requires WellFormed(a) && WellFormed(b)
    ensures WellFormed(a + b)
    decreases |a|
  {
    if a == [] {
      assert a + b == b;
    } else {
      assert (a + b)[0] == a[0] && (a + b)[1..] == a[1..] + b;
      WellFormedConcat(a[1..], b);
    }
  }

  /** What may come after a statement: the end of its block, or another statement. */
  predicate Follows(lines: seq<Line>, indent: nat) {
    lines == [] || lines[0].indent < indent ||
    (lines[0].indent == indent && (lines[0].token.AssignLine? || lines[0].token.IfLine? || lines[0].token.TryLine?))
  }

  predicate Ends(lines: seq<Line>, indent: nat) {
    lines == [] || lines[0].indent < indent
  }

  lemma {:induction false} PrintFollows(block: seq<Stmt>, indent: nat, rest: seq<Line>)
    requires WellFormed(block) && Ends(rest, indent)
    ensures Follows(Print(block, indent) + rest, indent)
  {
    if block != [] {
      assert WellFormedStmt(block[0]);
      assert PrintStmt(block[0], indent) != [];
    }
  }

  /** The text determines the code: it reads back as the block it was printed from. */
  lemma {:induction false} ParsePrint(block: seq<Stmt>, indent: nat, rest: seq<Line>)
    requires WellFormed(block) && Ends(rest, indent)
    ensures Parse(Print(block, indent) + rest, indent) == Parsed(block, rest)
    decreases block, 1
  {
    if block == [] {
      assert Print(block, indent) + rest == rest;
    } else {
      var tail := Print(block[1..], indent) + rest;
      assert Print(block, indent) + rest == PrintStmt(block[0], indent) + tail;
      PrintFollows(block[1..], indent, rest);
      ParsePrintStmt(block[0], indent, tail);
      ParsePrint(block[1..], indent, rest);
      assert block == [block[0]] + block[1..];
    }
  }

  lemma {:induction false} ParsePrintStmt(s: Stmt, indent: nat, rest: seq<Line>)
    requires WellFormedStmt(s) && Follows(rest, indent)
    ensures Parse(PrintStmt(s, indent) + rest, indent) == ParseOn(Parsed(s, rest), indent)
    decreases s, 4
  {
    var lines := PrintStmt(s, indent) + rest;
    match s
    case Assign(_, _) =>
      assert lines[1..] == rest;
    case If(arms, orelse) => ParsePrintIf(arms, orelse, indent, rest);
    case TryPass(caught, body) =>
      var handler := [Line(indent, ExceptLine(caught)), Line(indent + 1, PassLine)] + rest;
      assert lines[1..] == Print(body, indent + 1) + handler;
      ParsePrint(body, indent + 1, handler);
      assert handler[2..] == rest;
  }

  lemma {:induction false} ParsePrintIf(arms: seq<Arm>, orelse: seq<Stmt>, indent: nat, rest: seq<Line>)
    requires arms != [] && WellFormedArms(arms) && WellFormed(orelse) && Follows(rest, indent)
    ensures Parse(PrintStmt(If(arms, orelse), indent) + rest, indent) == ParseOn(Parsed(If(arms, orelse), rest), indent)
    decreases If(arms, orelse), 3
  {
    var body, elifs := Print(arms[0].body, indent + 1), PrintArms(arms[1..], indent, false);
    var afterArms := PrintElse(orelse, indent) + rest;
    var first := Line(indent, IfLine(arms[0].cond));
    IfLines(IfLine(arms[0].cond), indent, body, elifs, PrintElse(orelse, indent), rest);
    assert PrintStmt(If(arms, orelse), indent) == ([first] + body + elifs) + PrintElse(orelse, indent);
    var lines := ([first] + body + elifs) + PrintElse(orelse, indent) + rest;
    ParsePrintElse(orelse, indent, rest);
    ParsePrintElifs(arms[1..], indent, afterArms);
    ParsePrint(arms[0].body, indent + 1, elifs + afterArms);
    ParseIf(arms, orelse, indent, lines, elifs + afterArms, afterArms, rest);
  }

  lemma {:induction false} ParseIf(
    arms: seq<Arm>, orelse: seq<Stmt>, indent: nat, lines: seq<Line>, elifs: seq<Line>, afterArms: seq<Line>,
    rest: seq<Line>)
    requires arms != [] && lines != [] && lines[0] == Line(indent, IfLine(arms[0].cond))
    requires Parse(lines[1..], indent + 1) == Parsed(arms[0].body, elifs)
    requires ParseElifs(elifs, indent) == Parsed(arms[1..], afterArms)
    requires ParseElse(afterArms, indent) == Parsed(orelse, rest)
    ensures |rest| < |lines| && Parse(lines, indent) == ParseOn(Parsed(If(arms, orelse), rest), indent)
  {
    assert arms == [Arm(arms[0].cond, arms[0].body)] + arms[1..];
  }

  lemma {:induction false} IfLines(
    t: Token, indent: nat, body: seq<Line>, elifs: seq<Line>, orelse: seq<Line>, rest: seq<Line>)
    ensures var lines := ([Line(indent, t)] + body + elifs) + orelse + rest;
            lines[0] == Line(indent, t) && lines[1..] == body + (elifs + (orelse + rest))
  {
  }

  lemma {:induction false} ElifLines(t: Token, indent: nat, body: seq<Line>, elifs: seq<Line>, rest: seq<Line>)
    ensures var lines := ([Line(indent, t)] + body + elifs) + rest;
            lines[0] == Line(indent, t) && lines[1..] == body + (elifs + rest)
  {
  }

  lemma {:induction false} ParsePrintElifs(arms: seq<Arm>, indent: nat, rest: seq<Line>)
    requires WellFormedArms(arms)
    requires Ends(rest, indent + 1) && !(At(rest, indent) && rest[0].token.ElifLine?)
    ensures ParseElifs(PrintArms(arms, indent, false) + rest, indent) == Parsed(arms, rest)
    ensures Ends(PrintArms(arms, indent, false) + rest, indent + 1)
    decreases arms, 2
  {
    if arms == [] {
      assert PrintArms(arms, indent, false) + rest == rest;
    } else {
      var body, elifs := Print(arms[0].body, indent + 1), PrintArms(arms[1..], indent, false);
      ParsePrintElifs(arms[1..], indent, rest);
      ParsePrint(arms[0].body, indent + 1, elifs + rest);
      ElifLines(ElifLine(arms[0].cond), indent, body, elifs, rest);
      ParseElifArm(arms, indent, PrintArms(arms, indent, false) + rest, elifs + rest, rest);
    }
  }

  lemma {:induction false} ParseElifArm(
    arms: seq<Arm>, indent: nat, lines: seq<Line>, others: seq<Line>, rest: seq<Line>)
    requires arms != [] && lines != [] && lines[0] == Line(indent, ElifLine(arms[0].cond))
    requires Parse(lines[1..], indent + 1) == Parsed(arms[0].body, others)
    requires ParseElifs(others, indent) == Parsed(arms[1..], rest)
    ensures ParseElifs(lines, indent) == Parsed(arms, rest)
  {
    assert arms == [arms[0]] + arms[1..];
  }

  lemma {:induction false} ParsePrintElse(orelse: seq<Stmt>, indent: nat, rest: seq<Line>)
    requires WellFormed(orelse) && Follows(rest, indent)
    ensures var lines := PrintElse(orelse, indent) + rest;
            && ParseElse(lines, indent) == Parsed(orelse, rest)
            && Ends(lines, indent + 1) && !(At(lines, indent) && lines[0].token.ElifLine?)
    decreases orelse, 2
  {
    var lines := PrintElse(orelse, indent) + rest;
    if orelse == [] {
      assert lines == rest;
    } else {
      assert lines[1..] == Print(orelse, indent + 1) + rest;
      ParsePrint(orelse, indent + 1, rest);
    }
  }
}
