/**
 * `parseTokens()`: declarations one after another until END, every
 * diagnostic reported, and the statements handed on only when there was
 * none. The C++ reports each diagnostic as it goes and ends the process
 * with status 65 afterwards; here the diagnostics are the error value, in
 * the order they were raised.
 */
module Program {
  import opened Wrappers
  import opened Tokens
  import opened Errors
  import opened Ast
  import opened Cursor
  import opened Shapes
  import opened ExprParser
  import opened StmtParser
  import Lexer
  import Scanning
  import opened Seqs

  /** A declaration result the top level can receive: a shaped statement or a parser error. */
  ghost predicate Acceptable(d: Parse<Option<Stmt>>)
  {
    (d.POk? ==> StmtShaped(d.value)) && (d.PErr? ==> StmtErrorKind(d.error.kind))
  }

  /**
   * The declarations the top level parses from `pos` on, each starting
   * where the previous one (or its resynchronisation) stopped.
   */
  function Declarations(ts: seq<Token>, pos: nat): (ds: seq<Parse<Option<Stmt>>>)
    requires At(ts, pos)
    ensures |ds| == 0 <==> AtEnd(ts, pos)
    ensures |ds| <= |ts| - 1 - pos
    decreases |ts| - pos
  {
    if AtEnd(ts, pos) then []
    else
      var d := ParseDeclaration(ts, pos);
      [d] + Declarations(ts, d.pos)
  }

  /** The statements of the successful declarations, in order. */
  function Oks(ds: seq<Parse<Option<Stmt>>>): seq<Option<Stmt>>
  {
    if |ds| == 0 then []
    else (if ds[0].POk? then [ds[0].value] else []) + Oks(ds[1..])
  }

  /** The errors of the failed declarations, in order. */
  function Errs(ds: seq<Parse<Option<Stmt>>>): seq<ParseError>
  {
    if |ds| == 0 then []
    else (if ds[0].PErr? then [ds[0].error] else []) + Errs(ds[1..])
  }

  /** What the top level makes of a run of declarations: all statements, or all diagnostics. */
  function Outcome(ds: seq<Parse<Option<Stmt>>>): Result<seq<Option<Stmt>>, seq<ParseError>>
  {
    if |Errs(ds)| == 0 then Ok(Oks(ds)) else Err(Errs(ds))
  }

  /**
   * `parseTokens()`: the C++ loop, declaration by declaration. It agrees
   * with the run of declarations, so it fails exactly when some
   * declaration failed, with every diagnostic; otherwise every statement
   * is one the parser can produce.
   */
  method ParseTokens(ts: seq<Token>) returns (r: Result<seq<Option<Stmt>>, seq<ParseError>>)
    requires ValidTokens(ts)
    ensures r == Outcome(Declarations(ts, 0))
    ensures r.Ok? ==> AllStmtShaped(r.value)
    ensures r.Err? ==> |r.error| > 0 && forall i :: 0 <= i < |r.error| ==> StmtErrorKind(r.error[i].kind)
  {
    var pos := 0;
    var statements: seq<Option<Stmt>> := [];
    var errors: seq<ParseError> := [];
    while !AtEnd(ts, pos)
      invariant At(ts, pos)
      invariant Oks(Declarations(ts, 0)) == statements + Oks(Declarations(ts, pos))
      invariant Errs(Declarations(ts, 0)) == errors + Errs(Declarations(ts, pos))
      decreases |ts| - pos
    {
      var d := ParseDeclaration(ts, pos);
      Step(ts, pos, statements, errors);
      if d.POk? {
        statements := statements + [d.value];
      } else {
        errors := errors + [d.error];
      }
      pos := d.pos;
    }
    Finish(ts, pos, statements, errors);
    if |errors| == 0 {
      r := Ok(statements);
    } else {
      r := Err(errors);
    }
  }

  /**
   * One loop turn keeps the invariant: the run of declarations from `pos`
   * is this declaration and the run after it.
   */
  lemma Step(ts: seq<Token>, pos: nat, statements: seq<Option<Stmt>>, errors: seq<ParseError>)
    requires At(ts, pos) && !AtEnd(ts, pos)
    requires Oks(Declarations(ts, 0)) == statements + Oks(Declarations(ts, pos))
    requires Errs(Declarations(ts, 0)) == errors + Errs(Declarations(ts, pos))
    ensures
      var d := ParseDeclaration(ts, pos);
      d.POk? ==>
        && Oks(Declarations(ts, 0)) == (statements + [d.value]) + Oks(Declarations(ts, d.pos))
        && Errs(Declarations(ts, 0)) == errors + Errs(Declarations(ts, d.pos))
    ensures
      var d := ParseDeclaration(ts, pos);
      d.PErr? ==>
        && Oks(Declarations(ts, 0)) == statements + Oks(Declarations(ts, d.pos))
        && Errs(Declarations(ts, 0)) == (errors + [d.error]) + Errs(Declarations(ts, d.pos))
  {
    var d := ParseDeclaration(ts, pos);
    var ds := Declarations(ts, pos);
    assert ds == [d] + Declarations(ts, d.pos);
    assert ds[1..] == Declarations(ts, d.pos);
    if d.POk? {
      assert Oks(ds) == [d.value] + Oks(ds[1..]);
      assert Errs(ds) == [] + Errs(ds[1..]);
      Associative(statements, [d.value], Oks(ds[1..]));
      EmptyLeft(Errs(ds[1..]));
    } else {
      assert Oks(ds) == [] + Oks(ds[1..]);
      assert Errs(ds) == [d.error] + Errs(ds[1..]);
      Associative(errors, [d.error], Errs(ds[1..]));
      EmptyLeft(Oks(ds[1..]));
    }
  }

  /** At END the accumulated results are the whole run, and they meet the shape promises. */
  lemma Finish(ts: seq<Token>, pos: nat, statements: seq<Option<Stmt>>, errors: seq<ParseError>)
    requires At(ts, pos) && AtEnd(ts, pos)
    requires Oks(Declarations(ts, 0)) == statements + Oks(Declarations(ts, pos))
    requires Errs(Declarations(ts, 0)) == errors + Errs(Declarations(ts, pos))
    ensures Outcome(Declarations(ts, 0)) == if |errors| == 0 then Ok(statements) else Err(errors)
    ensures AllStmtShaped(statements)
    ensures forall i :: 0 <= i < |errors| ==> StmtErrorKind(errors[i].kind)
  {
    assert Declarations(ts, pos) == [];
    assert statements + [] == statements;
    assert errors + [] == errors;
    DeclarationsAcceptable(ts, 0);
    OksShaped(Declarations(ts, 0));
    ErrsKinds(Declarations(ts, 0));
  }

  /** Every declaration of the run gives a shaped statement or a parser error. */
  lemma {:induction false} DeclarationsAcceptable(ts: seq<Token>, pos: nat)
    requires At(ts, pos)
    ensures forall i :: 0 <= i < |Declarations(ts, pos)| ==> Acceptable(Declarations(ts, pos)[i])
    decreases |ts| - pos
  {
    if !AtEnd(ts, pos) {
      var d := ParseDeclaration(ts, pos);
      DeclarationShaped(ts, pos);
      DeclarationsAcceptable(ts, d.pos);
      assert Declarations(ts, pos) == [d] + Declarations(ts, d.pos);
    }
  }

  /** Every statement kept from acceptable declarations is shaped. */
  lemma {:induction false} OksShaped(ds: seq<Parse<Option<Stmt>>>)
    requires forall i :: 0 <= i < |ds| ==> Acceptable(ds[i])
    ensures AllStmtShaped(Oks(ds))
  {
    if |ds| > 0 {
      OksShaped(ds[1..]);
    }
  }

  /** Every diagnostic kept from acceptable declarations is a parser error. */
  lemma {:induction false} ErrsKinds(ds: seq<Parse<Option<Stmt>>>)
    requires forall i :: 0 <= i < |ds| ==> Acceptable(ds[i])
    ensures forall i :: 0 <= i < |Errs(ds)| ==> StmtErrorKind(Errs(ds)[i].kind)
  {
    if |ds| > 0 {
      ErrsKinds(ds[1..]);
    }
  }

  /** No diagnostics means no declaration failed, and then every declaration gave a statement. */
  lemma {:induction false} ErrsEmpty(ds: seq<Parse<Option<Stmt>>>)
    ensures |Errs(ds)| == 0 <==> forall i :: 0 <= i < |ds| ==> ds[i].POk?
    ensures |Errs(ds)| == 0 ==> |Oks(ds)| == |ds|
  {
    if |ds| > 0 {
      ErrsEmpty(ds[1..]);
      assert forall i :: 1 <= i < |ds| ==> ds[i] == ds[1..][i - 1];
    }
  }

  /** A stream the lexer produced is one the parser can run on. */
  lemma LexFeedsParser(filename: string, source: string)
    ensures Scanning.Lex(filename, source).Ok? ==> ValidTokens(Scanning.Lex(filename, source).value)
  {
    Scanning.LexGood(filename, source);
  }
}
