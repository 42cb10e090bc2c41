/**
 * The parser's cursor over the token sequence: peek, advance, check,
 * consume, the expected-token table used in consume's diagnostics, and
 * panic-mode synchronisation.
 */
module Cursor {
  import opened Tokens
  import opened Errors

  /**
   * What a parse function leaves behind: a value or an error, and in both
   * cases where the cursor stopped. Failed declarations resynchronise from
   * that position, so it is kept on the error path too.
   */
  datatype Parse<+T> = POk(value: T, pos: nat) | PErr(error: ParseError, pos: nat)

  /** A token sequence the parser can run on: it ends in END. */
  predicate ValidTokens(ts: seq<Token>)
  {
    |ts| > 0 && ts[|ts| - 1].kind == End
  }

  /** A cursor position inside such a sequence: `peek()` is `ts[pos]`. */
  predicate At(ts: seq<Token>, pos: nat)
  {
    ValidTokens(ts) && pos < |ts|
  }

  predicate AtEnd(ts: seq<Token>, pos: nat)
    requires pos < |ts|
  {
    ts[pos].kind == End
  }

  /** `advance()`: one token forward, except at END. */
  function Advance(ts: seq<Token>, pos: nat): (p: nat)
    requires At(ts, pos)
    ensures At(ts, p) && pos <= p <= pos + 1
    ensures p == pos <==> AtEnd(ts, pos)
  {
    if AtEnd(ts, pos) then pos else pos + 1
  }

  /** `check(kind)`: the next token has this kind; never true at END. */
  predicate Check(ts: seq<Token>, pos: nat, kind: TokenKind)
    requires pos < |ts|
  {
    !AtEnd(ts, pos) && ts[pos].kind == kind
  }

  /** A token in front of the cursor that is not END leaves room for one more. */
  lemma NotLast(ts: seq<Token>, pos: nat)
    requires At(ts, pos) && !AtEnd(ts, pos)
    ensures At(ts, pos + 1)
  {
  }

  /**
   * `consume(kind)`: on a match the token is taken and the cursor moves one
   * step; otherwise UnexpectedToken at the token in front of the cursor,
   * naming what was expected, and the cursor stays.
   */
  function Consume(ts: seq<Token>, pos: nat, kind: TokenKind): (r: Parse<Token>)
    requires At(ts, pos)
    ensures r.POk? <==> Check(ts, pos, kind)
    ensures r.POk? ==> r.value == ts[pos] && r.value.kind == kind && r.pos == pos + 1 && At(ts, r.pos)
    ensures r.PErr? ==> r.pos == pos && r.error == ParseError(UnexpectedToken, ts[pos], [Expected(kind)])
  {
    if Check(ts, pos, kind) then POk(ts[pos], pos + 1)
    else PErr(ParseError(UnexpectedToken, ts[pos], [Expected(kind)]), pos)
  }

  /**
   * The expected-token table: how a diagnostic names a kind. Kinds without
   * an entry read as the empty string, which is what the map's `[]`
   * inserts for a missing key.
   */
  function Expected(kind: TokenKind): string
  {
    match kind
    case LeftParen => "'('"        case RightParen => "')'"
    case LeftBrace => "'{'"        case RightBrace => "'}'"
    case Comma => "','"            case Dot => "'.'"
    case Minus => "'-'"            case Plus => "'+'"
    case Semicolon => "';'"        case Slash => "'/'"
    case Star => "'*'"             case Bang => "'!'"
    case BangEqual => "'!='"       case Equal => "'='"
    case EqualEqual => "'=='"      case Greater => "'>'"
    case GreaterEqual => "'>='"    case Less => "'<'"
    case LessEqual => "'<='"       case And => "'and'"
    case Else => "'else'"          case False => "'false'"
    case For => "'for'"            case Fn => "'fn'"
    case If => "'if'"              case Let => "'let'"
    case Or => "'or'"              case Print => "'print'"
    case Return => "'return'"      case True => "'true'"
    case While => "'while'"        case Identifier => "identifier"
    case String => "string"        case Number => "number"
    case End => "end of file"
    case _ => ""
  }

  /** The kinds the parser ever consumes. */
  predicate Consumed(kind: TokenKind)
  {
    kind == LeftParen || kind == RightParen || kind == RightBrace || kind == Semicolon || kind == Identifier
  }

  /**
   * Every kind the parser consumes has a table entry, and a punctuation
   * entry quotes the character the lexer reads for that kind.
   */
  lemma ExpectedCoversConsumed()
    ensures forall k :: Consumed(k) ==> Expected(k) != ""
    ensures forall k :: Consumed(k) && CategoryOf(k) == SingleChar ==> Expected(k) == ['\'', SingleSpelling(k), '\'']
  {
  }

  /** The keywords synchronize stops in front of. */
  predicate SyncKeyword(kind: TokenKind)
  {
    kind == Fn || kind == Let || kind == For || kind == If || kind == While || kind == Print || kind == Return
  }

  /**
   * A place synchronize may stop: END, just after a semicolon, or in front
   * of a statement keyword.
   */
  predicate SyncPoint(ts: seq<Token>, p: nat)
    requires p < |ts|
  {
    AtEnd(ts, p) || (p > 0 && ts[p - 1].kind == Semicolon) || SyncKeyword(ts[p].kind)
  }

  /** The loop of synchronize: the first sync point from `p` on. */
  function SyncFrom(ts: seq<Token>, p: nat): (r: nat)
    requires At(ts, p)
    ensures At(ts, r) && p <= r && SyncPoint(ts, r)
    ensures forall q :: p <= q < r ==> !SyncPoint(ts, q)
    decreases |ts| - p
  {
    if SyncPoint(ts, p) then p else SyncFrom(ts, p + 1)
  }

  /**
   * `synchronize()`: skip one token, then stop at the first sync point.
   * It moves at least one token unless already at END.
   */
  function Synchronize(ts: seq<Token>, pos: nat): (r: nat)
    requires At(ts, pos)
    ensures At(ts, r) && SyncPoint(ts, r)
    ensures r > pos || AtEnd(ts, pos)
    ensures forall q :: pos < q < r ==> !SyncPoint(ts, q)
  {
    SyncFrom(ts, Advance(ts, pos))
  }
}
