/**
 * The statement grammar: declaration (with panic-mode recovery),
 * statement, and one function per statement form.
 *
 * `for`, `break` and `return` succeed with no node after their keyword,
 * so a statement is an `Option<Stmt>`. declaration and statement differ
 * in which keywords they dispatch on: only declaration knows `fn` and
 * `let`, only statement knows `break` and `return`.
 */
module StmtParser {
  import opened Wrappers
  import opened Tokens
  import opened Errors
  import opened Ast
  import opened Cursor
  import opened Shapes
  import opened ExprParser
  import opened Seqs

  /** The errors the statement grammar raises. */
  predicate StmtErrorKind(kind: ErrorKind)
  {
    ExprErrorKind(kind) || kind == TooManyParameters
  }

  /**
   * What every statement parser promises: it moves forward within the
   * sequence, consumes something on success, and raises only parser
   * errors. That the statement built has a shape the parser can produce is
   * proved separately, by the lemmas at the end of this module.
   */
  ghost predicate StmtParsed(ts: seq<Token>, pos: nat, r: Parse<Option<Stmt>>)
  {
    Progress(ts, pos, r) && (r.PErr? ==> StmtErrorKind(r.error.kind))
  }

  /** A successful statement parse built a statement the parser can produce. */
  ghost predicate ShapedResult(r: Parse<Option<Stmt>>)
  {
    r.POk? ==> StmtShaped(r.value)
  }

  /** A failed declaration resynchronises from where the failing parse stopped. */
  function Recover(ts: seq<Token>, r: Parse<Option<Stmt>>): Parse<Option<Stmt>>
    requires At(ts, r.pos)
  {
    match r
    case POk(_, _) => r
    case PErr(e, p) => PErr(e, Synchronize(ts, p))
  }

  /**
   * `declaration()`: `fn`, `let`, `for`, `if`, `while`, `print` and `{`
   * start their statement form, anything else is an expression statement.
   * On failure the cursor is resynchronised, so it always moves forward
   * from a token that is not END, and a failure stops at a sync point.
   */
  function ParseDeclaration(ts: seq<Token>, pos: nat): (r: Parse<Option<Stmt>>)
    requires At(ts, pos)
    ensures StmtParsed(ts, pos, r)
    ensures !AtEnd(ts, pos) ==> pos < r.pos
    ensures r.PErr? ==> SyncPoint(ts, r.pos)
    decreases |ts| - pos, 5
  {
    var form :=
      if Check(ts, pos, Fn) then ParseFunction(ts, pos + 1)
      else if Check(ts, pos, Let) then ParseVarDeclaration(ts, pos + 1)
      else if Check(ts, pos, For) then ParseFor(ts, pos + 1)
      else if Check(ts, pos, If) then ParseIf(ts, pos + 1)
      else if Check(ts, pos, While) then ParseWhile(ts, pos + 1)
      else if Check(ts, pos, Print) then ParsePrint(ts, pos + 1)
      else if Check(ts, pos, LeftBrace) then ParseBlock(ts, pos + 1)
      else ParseExpressionStatement(ts, pos);
    Resynced(ts, pos, form);
    Recover(ts, form)
  }

  /**
   * Resynchronising keeps a parse's progress, and a failure that stopped
   * in front of a token other than END moves past it to a sync point.
   */
  lemma Resynced(ts: seq<Token>, pos: nat, form: Parse<Option<Stmt>>)
    requires At(ts, pos) && StmtParsed(ts, pos, form)
    ensures var r := Recover(ts, form);
      && StmtParsed(ts, pos, r)
      && (!AtEnd(ts, pos) ==> pos < r.pos || (form.POk? && form.pos == pos))
      && (r.PErr? ==> SyncPoint(ts, r.pos))
  {
  }

  /**
   * `statement()`: `print`, `{`, `if`, `while`, `for`, `break` and
   * `return` start their form, anything else is an expression statement.
   * Errors are passed up without resynchronising.
   */
  function ParseStatement(ts: seq<Token>, pos: nat): (r: Parse<Option<Stmt>>)
    requires At(ts, pos)
    ensures StmtParsed(ts, pos, r)
    decreases |ts| - pos, 5
  {
    if Check(ts, pos, Print) then ParsePrint(ts, pos + 1)
    else if Check(ts, pos, LeftBrace) then ParseBlock(ts, pos + 1)
    else if Check(ts, pos, If) then ParseIf(ts, pos + 1)
    else if Check(ts, pos, While) then ParseWhile(ts, pos + 1)
    else if Check(ts, pos, For) then ParseFor(ts, pos + 1)
    else if Check(ts, pos, Break) then ParseBreak(ts, pos + 1)
    else if Check(ts, pos, Return) then ParseReturn(ts, pos + 1)
    else ParseExpressionStatement(ts, pos)
  }

  /** `forStatement()`, entered after `for`: no node, nothing more consumed. */
  function ParseFor(ts: seq<Token>, pos: nat): Parse<Option<Stmt>>
  {
    POk(None, pos)
  }

  /** `breakStatement()`, entered after `break`: no node, nothing more consumed. */
  function ParseBreak(ts: seq<Token>, pos: nat): Parse<Option<Stmt>>
  {
    POk(None, pos)
  }

  /** `returnStatement()`, entered after `return`: no node, nothing more consumed. */
  function ParseReturn(ts: seq<Token>, pos: nat): Parse<Option<Stmt>>
  {
    POk(None, pos)
  }

  /**
   * `varDeclaration()`, entered after `let`: a name, an optional
   * `= initializer`, and `;`.
   */
  function ParseVarDeclaration(ts: seq<Token>, pos: nat): (r: Parse<Option<Stmt>>)
    requires At(ts, pos)
    ensures StmtParsed(ts, pos, r)
    ensures r.POk? ==> r.value.Some? && r.value.value.VarStmt? && r.value.value.name == ts[pos]
  {
    match Consume(ts, pos, Identifier)
    case PErr(e, p) => PErr(e, p)
    case POk(name, p) => VarRest(ts, p, name)
  }

  /** What follows the name of a variable: the optional initializer and `;`. */
  function VarRest(ts: seq<Token>, pos: nat, name: Token): (r: Parse<Option<Stmt>>)
    requires At(ts, pos)
    ensures StmtParsed(ts, pos, r)
    ensures r.POk? ==> r.value.Some? && r.value.value.VarStmt? && r.value.value.name == name
    ensures r.POk? ==> ts[r.pos - 1].kind == Semicolon && Initializer(ts, pos) == POk(r.value.value.initializer, r.pos - 1)
  {
    match Initializer(ts, pos)
    case PErr(e, p) => PErr(e, p)
    case POk(init, p) =>
      match Consume(ts, p, Semicolon)
      case PErr(e, p2) => PErr(e, p2)
      case POk(_, p2) => POk(Some(VarStmt(name, init)), p2)
  }

  /**
   * The optional `= initializer` of a variable declaration: present exactly
   * when `=` follows the name.
   */
  function Initializer(ts: seq<Token>, pos: nat): (r: Parse<Option<Expr>>)
    requires At(ts, pos)
    ensures At(ts, r.pos) && pos <= r.pos
    ensures r.POk? ==> (r.value.Some? <==> Check(ts, pos, Equal)) && (r.value.Some? ==> WellNested(r.value.value))
    ensures r.POk? && r.value.None? ==> r.pos == pos
    ensures r.POk? && r.value.Some? ==> pos + 1 < |ts| && ParseExpression(ts, pos + 1) == POk(r.value.value, r.pos)
    ensures r.PErr? ==> Check(ts, pos, Equal) && ExprErrorKind(r.error.kind)
  {
    if Check(ts, pos, Equal) then
      match ParseExpression(ts, pos + 1)
      case PErr(e, p) => PErr(e, p)
      case POk(value, p) => POk(Some(value), p)
    else POk(None, pos)
  }

  /** `printStatement()`, entered after `print`: an expression and `;`. */
  function ParsePrint(ts: seq<Token>, pos: nat): (r: Parse<Option<Stmt>>)
    requires At(ts, pos)
    ensures StmtParsed(ts, pos, r)
    ensures r.POk? ==> r.value.Some? && r.value.value.PrintStmt?
  {
    match ParseExpression(ts, pos)
    case PErr(e, p) => PErr(e, p)
    case POk(value, p) =>
      match Consume(ts, p, Semicolon)
      case PErr(e, p2) => PErr(e, p2)
      case POk(_, p2) => POk(Some(PrintStmt(value)), p2)
  }

  /** `expressionStatement()`: an expression and `;`. */
  function ParseExpressionStatement(ts: seq<Token>, pos: nat): (r: Parse<Option<Stmt>>)
    requires At(ts, pos)
    ensures StmtParsed(ts, pos, r)
    ensures r.POk? ==> r.value.Some? && r.value.value.ExpressionStmt?
  {
    match ParseExpression(ts, pos)
    case PErr(e, p) => PErr(e, p)
    case POk(value, p) =>
      match Consume(ts, p, Semicolon)
      case PErr(e, p2) => PErr(e, p2)
      case POk(_, p2) => POk(Some(ExpressionStmt(value)), p2)
  }

  /**
   * `block()`, entered after `{`: declarations up to `}` or END, then `}`.
   * The first failing declaration (already resynchronised) fails the block.
   */
  function ParseBlock(ts: seq<Token>, pos: nat): (r: Parse<Option<Stmt>>)
    requires At(ts, pos)
    ensures StmtParsed(ts, pos, r)
    ensures r.POk? ==> r.value.Some? && r.value.value.BlockStmt? && ts[r.pos - 1].kind == RightBrace
    decreases |ts| - pos, 7
  {
    match BlockItems(ts, pos, [])
    case PErr(e, p) => PErr(e, p)
    case POk(items, p) =>
      match Consume(ts, p, RightBrace)
      case PErr(e, p2) => PErr(e, p2)
      case POk(_, p2) => POk(Some(BlockStmt(items)), p2)
  }

  /** The loop of block: `acc` holds the items parsed so far, in order. */
  function BlockItems(ts: seq<Token>, pos: nat, acc: seq<Option<Stmt>>): (r: Parse<seq<Option<Stmt>>>)
    requires At(ts, pos)
    ensures At(ts, r.pos) && pos <= r.pos
    ensures r.POk? ==> |acc| <= |r.value|
    ensures r.POk? ==> AtEnd(ts, r.pos) || ts[r.pos].kind == RightBrace
    ensures r.PErr? ==> StmtErrorKind(r.error.kind) && SyncPoint(ts, r.pos)
    decreases |ts| - pos, 6
  {
    if !Check(ts, pos, RightBrace) && !AtEnd(ts, pos) then
      match ParseDeclaration(ts, pos)
      case PErr(e, p) => PErr(e, p)
      case POk(item, p) => BlockItems(ts, p, acc + [item])
    else POk(acc, pos)
  }

  /** `acc` put in front of the items of a successful loop; an error is kept as it is. */
  function Prepend(acc: seq<Option<Stmt>>, r: Parse<seq<Option<Stmt>>>): Parse<seq<Option<Stmt>>>
  {
    match r
    case POk(items, p) => POk(acc + items, p)
    case PErr(e, p) => PErr(e, p)
  }

  /**
   * The loop does not depend on what it was given: from any `acc` it
   * parses the same declarations, stops at the same token and fails with
   * the same error, and on success appends the items to `acc` in order.
   */
  lemma {:induction false} BlockItemsFrom(ts: seq<Token>, pos: nat, acc: seq<Option<Stmt>>)
    requires At(ts, pos)
    ensures BlockItems(ts, pos, acc) == Prepend(acc, BlockItems(ts, pos, []))
    decreases |ts| - pos
  {
    if !Check(ts, pos, RightBrace) && !AtEnd(ts, pos) {
      var d := ParseDeclaration(ts, pos);
      if d.POk? {
        assert [] + [d.value] == [d.value];
        assert BlockItems(ts, pos, acc) == BlockItems(ts, d.pos, acc + [d.value]);
        assert BlockItems(ts, pos, []) == BlockItems(ts, d.pos, [d.value]);
        BlockItemsFrom(ts, d.pos, acc + [d.value]);
        BlockItemsFrom(ts, d.pos, [d.value]);
        var rest := BlockItems(ts, d.pos, []);
        if rest.POk? {
          Associative(acc, [d.value], rest.value);
        }
      }
    } else {
      assert acc + [] == acc;
    }
  }

  /**
   * `ifStatement()`, entered after `if`: the parenthesised condition, the
   * then-branch, and the else-branch; both branches are statements, not
   * declarations.
   */
  function ParseIf(ts: seq<Token>, pos: nat): (r: Parse<Option<Stmt>>)
    requires At(ts, pos)
    ensures StmtParsed(ts, pos, r)
    ensures r.POk? ==> r.value.Some? && r.value.value.IfStmt?
    decreases |ts| - pos, 5
  {
    match ParenCondition(ts, pos)
    case PErr(e, p) => PErr(e, p)
    case POk(condition, p) =>
      match ParseStatement(ts, p)
      case PErr(e, p2) => PErr(e, p2)
      case POk(thenBranch, p2) =>
        match ElseBranch(ts, p2)
        case PErr(e, p3) => PErr(e, p3)
        case POk(elseBranch, p3) => POk(Some(IfStmt(condition, thenBranch, elseBranch)), p3)
  }

  /**
   * The else-branch of an if: a statement if `else` follows, otherwise
   * null and nothing consumed.
   */
  function ElseBranch(ts: seq<Token>, pos: nat): (r: Parse<Option<Stmt>>)
    requires At(ts, pos)
    ensures At(ts, r.pos) && pos <= r.pos
    ensures r.POk? ==> (r.pos == pos <==> !Check(ts, pos, Else))
    ensures r.PErr? ==> Check(ts, pos, Else) && StmtErrorKind(r.error.kind)
    decreases |ts| - pos, 6
  {
    if Check(ts, pos, Else) then ParseStatement(ts, pos + 1) else POk(None, pos)
  }

  /** The `( condition )` of if and while. */
  function ParenCondition(ts: seq<Token>, pos: nat): (r: Parse<Expr>)
    requires At(ts, pos)
    ensures Progress(ts, pos, r)
    ensures r.POk? ==> WellNested(r.value) && ts[pos].kind == LeftParen && ts[r.pos - 1].kind == RightParen
    ensures r.PErr? ==> ExprErrorKind(r.error.kind)
  {
    match Consume(ts, pos, LeftParen)
    case PErr(e, p) => PErr(e, p)
    case POk(_, p) =>
      match ParseExpression(ts, p)
      case PErr(e, p2) => PErr(e, p2)
      case POk(condition, p2) =>
        match Consume(ts, p2, RightParen)
        case PErr(e, p3) => PErr(e, p3)
        case POk(_, p3) => POk(condition, p3)
  }

  /** `whileStatement()`, entered after `while`: the parenthesised condition and the body. */
  function ParseWhile(ts: seq<Token>, pos: nat): (r: Parse<Option<Stmt>>)
    requires At(ts, pos)
    ensures StmtParsed(ts, pos, r)
    ensures r.POk? ==> r.value.Some? && r.value.value.WhileStmt?
    decreases |ts| - pos, 5
  {
    match ParenCondition(ts, pos)
    case PErr(e, p) => PErr(e, p)
    case POk(condition, p) =>
      match ParseStatement(ts, p)
      case PErr(e, p2) => PErr(e, p2)
      case POk(body, p2) => POk(Some(WhileStmt(condition, body)), p2)
  }

  /**
   * `function("function")`, entered after `fn`: a name, the parenthesised
   * parameters, and a body statement (not necessarily a block).
   */
  function ParseFunction(ts: seq<Token>, pos: nat): (r: Parse<Option<Stmt>>)
    requires At(ts, pos)
    ensures StmtParsed(ts, pos, r)
    ensures r.POk? ==> r.value.Some? && r.value.value.FunctionStmt? && r.value.value.name == ts[pos]
    decreases |ts| - pos, 5
  {
    match Consume(ts, pos, Identifier)
    case PErr(e, p) => PErr(e, p)
    case POk(name, p) =>
      match ParamList(ts, p)
      case PErr(e, p2) => PErr(e, p2)
      case POk(params, p2) =>
        match ParseStatement(ts, p2)
        case PErr(e, p3) => PErr(e, p3)
        case POk(body, p3) => POk(Some(FunctionStmt(name, params, body)), p3)
  }

  /** The `( parameters )` of a function: none if `)` follows `(` at once. */
  function ParamList(ts: seq<Token>, pos: nat): (r: Parse<seq<Token>>)
    requires At(ts, pos)
    ensures Progress(ts, pos, r)
    ensures r.POk? ==> |r.value| <= MaxArity && AllIdentifiers(r.value)
    ensures r.PErr? ==> r.error.kind == UnexpectedToken || r.error.kind == TooManyParameters
  {
    match Consume(ts, pos, LeftParen)
    case PErr(e, p) => PErr(e, p)
    case POk(_, p) =>
      match (if Check(ts, p, RightParen) then POk([], p) else Parameters(ts, p, []))
      case PErr(e, p2) => PErr(e, p2)
      case POk(params, p2) =>
        match Consume(ts, p2, RightParen)
        case PErr(e, p3) => PErr(e, p3)
        case POk(_, p3) => POk(params, p3)
  }

  /**
   * The parameter loop, entered after `(` or a comma: `acc` holds the
   * parameters so far. Before the 256th parameter the function fails with
   * TooManyParameters at the token just consumed (the comma).
   */
  function Parameters(ts: seq<Token>, pos: nat, acc: seq<Token>): (r: Parse<seq<Token>>)
    requires At(ts, pos) && pos > 0 && |acc| <= MaxArity
    requires AllIdentifiers(acc)
    ensures At(ts, r.pos) && pos <= r.pos
    ensures r.POk? ==> |acc| < |r.value| <= MaxArity && r.value[..|acc|] == acc
    ensures r.POk? ==> AllIdentifiers(r.value)
    ensures r.POk? ==> r.pos == pos + 2 * (|r.value| - |acc|) - 1 && !Check(ts, r.pos, Comma)
    ensures r.PErr? && r.error.kind == TooManyParameters ==> r.error == ParseError(TooManyParameters, ts[r.pos - 1], [])
    ensures r.PErr? ==> r.error.kind == UnexpectedToken || r.error.kind == TooManyParameters
    decreases |ts| - pos
  {
    if |acc| >= MaxArity then PErr(ParseError(TooManyParameters, ts[pos - 1], []), pos)
    else
      match Consume(ts, pos, Identifier)
      case PErr(e, p) => PErr(e, p)
      case POk(param, p) =>
        if Check(ts, p, Comma) then Parameters(ts, p + 1, acc + [param])
        else POk(acc + [param], p)
  }

  /**
   * The loop reads names and commas alternately: the k-th parameter it adds
   * is the token 2k places on, and a comma follows each one but the last.
   */
  lemma ParamsOrder(ts: seq<Token>, pos: nat, acc: seq<Token>)
    requires At(ts, pos) && pos > 0 && |acc| <= MaxArity
    requires AllIdentifiers(acc)
    ensures var r := Parameters(ts, pos, acc);
      r.POk? ==>
        forall i :: |acc| <= i < |r.value| ==>
          && r.value[i] == ts[pos + 2 * (i - |acc|)]
          && (i + 1 < |r.value| ==> ts[pos + 2 * (i - |acc|) + 1].kind == Comma)
  {
    var r := Parameters(ts, pos, acc);
    if r.POk? {
      var added := r.value[|acc|..];
      ParamsAlternate(ts, pos, acc);
      AlternatingIndex(ts, pos, added);
      forall i | |acc| <= i < |r.value|
        ensures r.value[i] == ts[pos + 2 * (i - |acc|)]
      {
        assert r.value[i] == added[i - |acc|];
      }
    }
  }

  /** Names read from `pos` alternately with commas: a comma follows each name but the last. */
  ghost predicate Alternating(ts: seq<Token>, pos: nat, names: seq<Token>)
    decreases |names|
  {
    names != [] ==>
      && pos < |ts| && ts[pos] == names[0]
      && (|names| > 1 ==> pos + 1 < |ts| && ts[pos + 1].kind == Comma && Alternating(ts, pos + 2, names[1..]))
  }

  /** Alternating names sit at every second token. */
  lemma {:induction false} AlternatingIndex(ts: seq<Token>, pos: nat, names: seq<Token>)
    requires Alternating(ts, pos, names)
    ensures forall i :: 0 <= i < |names| ==>
      && pos + 2 * i < |ts| && names[i] == ts[pos + 2 * i]
      && (i + 1 < |names| ==> pos + 2 * i + 1 < |ts| && ts[pos + 2 * i + 1].kind == Comma)
    decreases |names|
  {
    if |names| > 1 {
      AlternatingIndex(ts, pos + 2, names[1..]);
      forall i | 1 <= i < |names|
        ensures pos + 2 * i < |ts| && names[i] == ts[pos + 2 * i]
        ensures i + 1 < |names| ==> pos + 2 * i + 1 < |ts| && ts[pos + 2 * i + 1].kind == Comma
      {
        assert names[i] == names[1..][i - 1];
      }
    }
  }

  /** The names the loop adds after `acc` alternate with commas from where it started. */
  lemma {:induction false} ParamsAlternate(ts: seq<Token>, pos: nat, acc: seq<Token>)
    requires At(ts, pos) && pos > 0 && |acc| <= MaxArity
    requires AllIdentifiers(acc)
    ensures var r := Parameters(ts, pos, acc);
      r.POk? ==> Alternating(ts, pos, r.value[|acc|..])
    decreases |ts| - pos
  {
    var r := Parameters(ts, pos, acc);
    if r.POk? {
      var more := acc + [ts[pos]];
      ParamsStep(ts, pos, acc);
      var added := r.value[|acc|..];
      assert added[0] == r.value[..|more|][|acc|];
      if Check(ts, pos + 1, Comma) {
        ParamsAlternate(ts, pos + 2, more);
        assert added[1..] == r.value[|more|..];
      } else {
        assert added == [ts[pos]];
      }
    }
  }

  /** A successful loop took a name at `pos`, and goes on after a comma or stops with that name. */
  lemma ParamsStep(ts: seq<Token>, pos: nat, acc: seq<Token>)
    requires At(ts, pos) && pos > 0 && |acc| <= MaxArity
    requires AllIdentifiers(acc)
    ensures var r := Parameters(ts, pos, acc);
      r.POk? ==>
        && pos + 1 < |ts| && Check(ts, pos, Identifier)
        && (Check(ts, pos + 1, Comma) ==> r == Parameters(ts, pos + 2, acc + [ts[pos]]))
        && (!Check(ts, pos + 1, Comma) ==> r.value == acc + [ts[pos]])
  {
  }

  /*
   * Parts. Each statement form is built from the parses it makes, in
   * order: these lemmas tie the node to those parses and say when the
   * form succeeds.
   */

  /**
   * A declaration ends just after its `;`, and its initializer is exactly
   * what Initializer parses after the name.
   */
  lemma VarParts(ts: seq<Token>, pos: nat)
    requires At(ts, pos)
    ensures var r := ParseVarDeclaration(ts, pos);
      r.POk? <==>
        && Check(ts, pos, Identifier) && pos + 1 < |ts|
        && var init := Initializer(ts, pos + 1);
        && init.POk? && Check(ts, init.pos, Semicolon)
    ensures var r := ParseVarDeclaration(ts, pos);
      r.POk? ==>
        && pos + 1 < |ts| && ts[r.pos - 1].kind == Semicolon
        && Initializer(ts, pos + 1) == POk(r.value.value.initializer, r.pos - 1)
  {
    var r := ParseVarDeclaration(ts, pos);
    if Check(ts, pos, Identifier) {
      var init := Initializer(ts, pos + 1);
      assert r == VarRest(ts, pos + 1, ts[pos]);
      if init.POk? {
        assert r.POk? <==> Check(ts, init.pos, Semicolon);
      }
    }
  }

  /** `print` succeeds exactly when an expression and `;` follow, and prints that expression. */
  lemma PrintParts(ts: seq<Token>, pos: nat)
    requires At(ts, pos)
    ensures var r := ParsePrint(ts, pos); var e := ParseExpression(ts, pos);
      && (r.POk? <==> e.POk? && Check(ts, e.pos, Semicolon))
      && (r.POk? ==> e == POk(r.value.value.expression, r.pos - 1) && ts[r.pos - 1].kind == Semicolon)
  {
  }

  /** An expression statement succeeds exactly when an expression and `;` follow, and holds that expression. */
  lemma ExpressionStmtParts(ts: seq<Token>, pos: nat)
    requires At(ts, pos)
    ensures var r := ParseExpressionStatement(ts, pos); var e := ParseExpression(ts, pos);
      && (r.POk? <==> e.POk? && Check(ts, e.pos, Semicolon))
      && (r.POk? ==> e == POk(r.value.value.expression, r.pos - 1) && ts[r.pos - 1].kind == Semicolon)
  {
  }

  /** A block succeeds exactly when its loop succeeds and stops at `}`, and holds the loop's items. */
  lemma BlockParts(ts: seq<Token>, pos: nat)
    requires At(ts, pos)
    ensures var r := ParseBlock(ts, pos); var items := BlockItems(ts, pos, []);
      && (r.POk? <==> items.POk? && Check(ts, items.pos, RightBrace))
      && (r.POk? ==> items == POk(r.value.value.statements, r.pos - 1))
  {
  }

  /** An if succeeds exactly when its condition and both branches parse, and holds them in order. */
  lemma IfParts(ts: seq<Token>, pos: nat)
    requires At(ts, pos)
    ensures var r := ParseIf(ts, pos); var c := ParenCondition(ts, pos);
      var t := ParseStatement(ts, c.pos);
      && (r.POk? <==> c.POk? && t.POk? && ElseBranch(ts, t.pos).POk?)
      && (r.POk? ==>
            && r.value.value.condition == c.value && r.value.value.thenBranch == t.value
            && ElseBranch(ts, t.pos) == POk(r.value.value.elseBranch, r.pos))
  {
  }

  /** Without `else` the branch is absent; with it, the branch is the statement after the `else`. */
  lemma ElseParts(ts: seq<Token>, pos: nat)
    requires At(ts, pos)
    ensures !Check(ts, pos, Else) ==> ElseBranch(ts, pos) == POk(None, pos)
    ensures Check(ts, pos, Else) ==> pos + 1 < |ts| && ElseBranch(ts, pos) == ParseStatement(ts, pos + 1)
  {
  }

  /** The condition is the expression parsed right after `(`, which ends in front of `)`. */
  lemma ParenParts(ts: seq<Token>, pos: nat)
    requires At(ts, pos)
    ensures var r := ParenCondition(ts, pos);
      r.POk? ==> pos + 1 < |ts| && ParseExpression(ts, pos + 1) == POk(r.value, r.pos - 1)
  {
  }

  /** A condition succeeds exactly when `(`, an expression and `)` follow one another. */
  lemma ParenSucceeds(ts: seq<Token>, pos: nat)
    requires At(ts, pos)
    ensures ParenCondition(ts, pos).POk? <==>
      && Check(ts, pos, LeftParen) && pos + 1 < |ts|
      && var e := ParseExpression(ts, pos + 1);
      && e.POk? && Check(ts, e.pos, RightParen)
  {
    if Check(ts, pos, LeftParen) {
      var e := ParseExpression(ts, pos + 1);
      if e.POk? {
        assert ParenCondition(ts, pos).POk? <==> Check(ts, e.pos, RightParen);
      } else {
        assert ParenCondition(ts, pos) == PErr(e.error, e.pos);
      }
    }
  }

  /** A while succeeds exactly when its condition and body parse, and holds them in order. */
  lemma WhileParts(ts: seq<Token>, pos: nat)
    requires At(ts, pos)
    ensures var r := ParseWhile(ts, pos); var c := ParenCondition(ts, pos);
      && (r.POk? <==> c.POk? && ParseStatement(ts, c.pos).POk?)
      && (r.POk? ==> r.value.value.condition == c.value && ParseStatement(ts, c.pos) == POk(r.value.value.body, r.pos))
  {
  }

  /** A function's parameters are the list after its name, and its body the statement after the list. */
  lemma FunctionParts(ts: seq<Token>, pos: nat)
    requires At(ts, pos)
    ensures var r := ParseFunction(ts, pos);
      r.POk? <==>
        && Check(ts, pos, Identifier) && pos + 1 < |ts|
        && var ps := ParamList(ts, pos + 1);
        && ps.POk? && ParseStatement(ts, ps.pos).POk?
    ensures var r := ParseFunction(ts, pos);
      r.POk? ==>
        && pos + 1 < |ts|
        && var ps := ParamList(ts, pos + 1);
        && ps.POk? && r.value.value.params == ps.value
        && ParseStatement(ts, ps.pos) == POk(r.value.value.body, r.pos)
  {
  }

  /**
   * A parameter list runs from `(` to just after `)`. It is empty exactly
   * when `)` follows `(` at once; otherwise it is what the parameter loop
   * returns from the first parameter.
   */
  lemma ParamListParts(ts: seq<Token>, pos: nat)
    requires At(ts, pos)
    ensures var r := ParamList(ts, pos);
      r.POk? ==>
        && ts[pos].kind == LeftParen && pos + 1 < |ts| && ts[r.pos - 1].kind == RightParen
        && (r.value == [] <==> Check(ts, pos + 1, RightParen))
        && (r.value != [] ==> Parameters(ts, pos + 1, []) == POk(r.value, r.pos - 1))
  {
    var r := ParamList(ts, pos);
    if r.POk? {
      var items := if Check(ts, pos + 1, RightParen) then POk([], pos + 1) else Parameters(ts, pos + 1, []);
      assert items.POk? && r == POk(items.value, items.pos + 1);
    }
  }

  /** A parameter list succeeds exactly when the loop's parameters, if any, are followed by `)`. */
  lemma ParamListSucceeds(ts: seq<Token>, pos: nat)
    requires At(ts, pos)
    ensures ParamList(ts, pos).POk? <==>
      && Check(ts, pos, LeftParen) && pos + 1 < |ts|
      && (Check(ts, pos + 1, RightParen)
          || var items := Parameters(ts, pos + 1, []); items.POk? && Check(ts, items.pos, RightParen))
  {
    if Check(ts, pos, LeftParen) {
      var items := if Check(ts, pos + 1, RightParen) then POk([], pos + 1) else Parameters(ts, pos + 1, []);
      if items.POk? {
        assert ParamList(ts, pos).POk? <==> Check(ts, items.pos, RightParen);
      } else {
        assert ParamList(ts, pos).PErr?;
      }
    }
  }

  /*
   * Shapes. Each lemma follows its parse function's branches and appeals
   * to the lemmas of the functions it calls, on the same measure.
   */

  lemma VarShaped(ts: seq<Token>, pos: nat)
    requires At(ts, pos)
    ensures ShapedResult(ParseVarDeclaration(ts, pos))
  {
  }

  lemma PrintShaped(ts: seq<Token>, pos: nat)
    requires At(ts, pos)
    ensures ShapedResult(ParsePrint(ts, pos))
  {
  }

  lemma ExpressionShaped(ts: seq<Token>, pos: nat)
    requires At(ts, pos)
    ensures ShapedResult(ParseExpressionStatement(ts, pos))
  {
  }

  lemma {:induction false} DeclarationShaped(ts: seq<Token>, pos: nat)
    requires At(ts, pos)
    ensures ShapedResult(ParseDeclaration(ts, pos))
    decreases |ts| - pos, 5
  {
    var r := ParseDeclaration(ts, pos);
    if r.POk? {
      if Check(ts, pos, Fn) {
        assert r == ParseFunction(ts, pos + 1);
        FunctionShaped(ts, pos + 1);
      } else if Check(ts, pos, Let) {
        assert r == ParseVarDeclaration(ts, pos + 1);
        VarShaped(ts, pos + 1);
      } else if Check(ts, pos, For) {
        assert r == ParseFor(ts, pos + 1);
      } else if Check(ts, pos, If) {
        assert r == ParseIf(ts, pos + 1);
        IfShaped(ts, pos + 1);
      } else if Check(ts, pos, While) {
        assert r == ParseWhile(ts, pos + 1);
        WhileShaped(ts, pos + 1);
      } else if Check(ts, pos, Print) {
        assert r == ParsePrint(ts, pos + 1);
        PrintShaped(ts, pos + 1);
      } else if Check(ts, pos, LeftBrace) {
        assert r == ParseBlock(ts, pos + 1);
        BlockShaped(ts, pos + 1);
      } else {
        assert r == ParseExpressionStatement(ts, pos);
        ExpressionShaped(ts, pos);
      }
    }
  }

  lemma {:induction false} StatementShaped(ts: seq<Token>, pos: nat)
    requires At(ts, pos)
    ensures ShapedResult(ParseStatement(ts, pos))
    decreases |ts| - pos, 5
  {
    var r := ParseStatement(ts, pos);
    if r.POk? {
      if Check(ts, pos, Print) {
        assert r == ParsePrint(ts, pos + 1);
        PrintShaped(ts, pos + 1);
      } else if Check(ts, pos, LeftBrace) {
        assert r == ParseBlock(ts, pos + 1);
        BlockShaped(ts, pos + 1);
      } else if Check(ts, pos, If) {
        assert r == ParseIf(ts, pos + 1);
        IfShaped(ts, pos + 1);
      } else if Check(ts, pos, While) {
        assert r == ParseWhile(ts, pos + 1);
        WhileShaped(ts, pos + 1);
      } else if Check(ts, pos, For) || Check(ts, pos, Break) || Check(ts, pos, Return) {
        assert r.value == None;
      } else {
        assert r == ParseExpressionStatement(ts, pos);
        ExpressionShaped(ts, pos);
      }
    }
  }

  lemma {:induction false} BlockShaped(ts: seq<Token>, pos: nat)
    requires At(ts, pos)
    ensures ShapedResult(ParseBlock(ts, pos))
    decreases |ts| - pos, 7
  {
    var r := ParseBlock(ts, pos);
    if r.POk? {
      var items := BlockItems(ts, pos, []);
      assert r == POk(Some(BlockStmt(items.value)), r.pos);
      BlockItemsShaped(ts, pos, []);
    }
  }

  lemma {:induction false} BlockItemsShaped(ts: seq<Token>, pos: nat, acc: seq<Option<Stmt>>)
    requires At(ts, pos) && AllStmtShaped(acc)
    ensures BlockItems(ts, pos, acc).POk? ==> AllStmtShaped(BlockItems(ts, pos, acc).value)
    decreases |ts| - pos, 6
  {
    if !Check(ts, pos, RightBrace) && !AtEnd(ts, pos) {
      var d := ParseDeclaration(ts, pos);
      if d.POk? {
        assert BlockItems(ts, pos, acc) == BlockItems(ts, d.pos, acc + [d.value]);
        DeclarationShaped(ts, pos);
        AppendShaped(acc, d.value);
        BlockItemsShaped(ts, d.pos, acc + [d.value]);
      }
    }
  }

  lemma {:induction false} IfShaped(ts: seq<Token>, pos: nat)
    requires At(ts, pos)
    ensures ShapedResult(ParseIf(ts, pos))
    decreases |ts| - pos, 5
  {
    var r := ParseIf(ts, pos);
    if r.POk? {
      var c := ParenCondition(ts, pos);
      var t := ParseStatement(ts, c.pos);
      var e := ElseBranch(ts, t.pos);
      assert r == POk(Some(IfStmt(c.value, t.value, e.value)), e.pos);
      StatementShaped(ts, c.pos);
      ElseShaped(ts, t.pos);
      assert WellNested(c.value) && StmtShaped(t.value) && StmtShaped(e.value);
      assert Shaped(IfStmt(c.value, t.value, e.value));
    }
  }

  lemma {:induction false} ElseShaped(ts: seq<Token>, pos: nat)
    requires At(ts, pos)
    ensures ShapedResult(ElseBranch(ts, pos))
    decreases |ts| - pos, 6
  {
    if Check(ts, pos, Else) {
      StatementShaped(ts, pos + 1);
    }
  }

  lemma {:induction false} WhileShaped(ts: seq<Token>, pos: nat)
    requires At(ts, pos)
    ensures ShapedResult(ParseWhile(ts, pos))
    decreases |ts| - pos, 5
  {
    var r := ParseWhile(ts, pos);
    if r.POk? {
      var c := ParenCondition(ts, pos);
      var body := ParseStatement(ts, c.pos);
      assert r == POk(Some(WhileStmt(c.value, body.value)), body.pos);
      StatementShaped(ts, c.pos);
      assert WellNested(c.value) && StmtShaped(body.value);
      assert Shaped(WhileStmt(c.value, body.value));
    }
  }

  lemma {:induction false} FunctionShaped(ts: seq<Token>, pos: nat)
    requires At(ts, pos)
    ensures ShapedResult(ParseFunction(ts, pos))
    decreases |ts| - pos, 5
  {
    var r := ParseFunction(ts, pos);
    if r.POk? {
      var name := Consume(ts, pos, Identifier);
      var params := ParamList(ts, name.pos);
      var body := ParseStatement(ts, params.pos);
      assert r == POk(Some(FunctionStmt(name.value, params.value, body.value)), body.pos);
      StatementShaped(ts, params.pos);
      assert name.value.kind == Identifier && |params.value| <= MaxArity && AllIdentifiers(params.value);
      assert StmtShaped(body.value);
      assert Shaped(FunctionStmt(name.value, params.value, body.value));
    }
  }

  lemma AppendShaped(acc: seq<Option<Stmt>>, item: Option<Stmt>)
    requires AllStmtShaped(acc) && StmtShaped(item)
    ensures AllStmtShaped(acc + [item])
  {
  }
}
