/**
 * The lexical vocabulary: the closed enumeration of token kinds, the token
 * record, and the three immutable lookup tables the lexer consults.
 */
module Tokens {
  import opened Wrappers

  /** Every token kind, in the order of the enumeration. */
  datatype TokenKind =
    // Single-character tokens
    | LeftParen | RightParen | LeftBrace | RightBrace | LeftBracket | RightBracket
    | Comma | Dot | Minus | Plus | Semicolon | Colon | Slash | Star | Question
    | Modulo | Bang | Equal | Greater | Less
    // Two-character tokens
    | BangEqual | EqualEqual | GreaterEqual | LessEqual | PlusPlus | MinusMinus | Arrow
    // Literals
    | Identifier | Number | String
    // Keywords
    | And | Break | Do | Else | Enum | False | For | Fn | If | Impl | Let | Mut
    | Or | Print | Return | Self | Skip | Struct | True | While
    // End of file
    | End

  /**
   * A scanned token. Besides kind, lexeme and 1-based position, the lexer
   * attaches the file name and the text of the source line the token is on.
   */
  datatype Token = Token(kind: TokenKind, lexeme: string, filename: string,
                         line: string, row: int, column: int)

  datatype Category = SingleChar | TwoChar | LiteralClass | Keyword | EndOfFile

  /** The block of the enumeration a kind is declared in. */
  function CategoryOf(k: TokenKind): Category
  {
    match k
    case LeftParen | RightParen | LeftBrace | RightBrace | LeftBracket | RightBracket
       | Comma | Dot | Minus | Plus | Semicolon | Colon | Slash | Star | Question
       | Modulo | Bang | Equal | Greater | Less => SingleChar
    case BangEqual | EqualEqual | GreaterEqual | LessEqual | PlusPlus | MinusMinus | Arrow => TwoChar
    case Identifier | Number | String => LiteralClass
    case End => EndOfFile
    case _ => Keyword
  }

  /** The one-character punctuation table: the kind a character stands for, if any. */
  function SingleKind(c: char): Option<TokenKind>
  {
    match c
    case '(' => Some(LeftParen)   case ')' => Some(RightParen)
    case '{' => Some(LeftBrace)   case '}' => Some(RightBrace)
    case '[' => Some(LeftBracket) case ']' => Some(RightBracket)
    case ';' => Some(Semicolon)   case ',' => Some(Comma)
    case '.' => Some(Dot)         case '-' => Some(Minus)
    case '+' => Some(Plus)        case '/' => Some(Slash)
    case '*' => Some(Star)        case '%' => Some(Modulo)
    case '!' => Some(Bang)        case '=' => Some(Equal)
    case '<' => Some(Less)        case '>' => Some(Greater)
    case '?' => Some(Question)    case ':' => Some(Colon)
    case _ => None
  }

  /** The two-character operator table, keyed by the two characters. */
  function DoubleKind(a: char, b: char): Option<TokenKind>
  {
    if a == '!' && b == '=' then Some(BangEqual)
    else if a == '=' && b == '=' then Some(EqualEqual)
    else if a == '>' && b == '=' then Some(GreaterEqual)
    else if a == '<' && b == '=' then Some(LessEqual)
    else if a == '+' && b == '+' then Some(PlusPlus)
    else if a == '-' && b == '-' then Some(MinusMinus)
    else if a == '-' && b == '>' then Some(Arrow)
    else None
  }

  /** The reserved-word table: the keyword kind a spelling stands for, if any. */
  function KeywordKind(s: string): (r: Option<TokenKind>)
  {
    match s
    case "and" => Some(And)       case "break" => Some(Break)   case "do" => Some(Do)
    case "else" => Some(Else)     case "enum" => Some(Enum)     case "false" => Some(False)
    case "for" => Some(For)       case "fn" => Some(Fn)         case "if" => Some(If)
    case "impl" => Some(Impl)     case "let" => Some(Let)       case "mut" => Some(Mut)
    case "or" => Some(Or)         case "print" => Some(Print)   case "return" => Some(Return)
    case "self" => Some(Self)     case "skip" => Some(Skip)     case "struct" => Some(Struct)
    case "true" => Some(True)     case "while" => Some(While)
    case _ => None
  }

  /** The character a one-character kind is written with (inverse of SingleKind). */
  function SingleSpelling(k: TokenKind): char
  {
    match k
    case LeftParen => '(' case RightParen => ')' case LeftBrace => '{' case RightBrace => '}'
    case LeftBracket => '[' case RightBracket => ']' case Comma => ',' case Dot => '.'
    case Minus => '-' case Plus => '+' case Semicolon => ';' case Colon => ':'
    case Slash => '/' case Star => '*' case Question => '?' case Modulo => '%'
    case Bang => '!' case Equal => '=' case Greater => '>' case Less => '<'
    case _ => '\0'
  }

  /** The text a two-character kind is written with (inverse of DoubleKind). */
  function DoubleSpelling(k: TokenKind): string
  {
    match k
    case BangEqual => "!=" case EqualEqual => "==" case GreaterEqual => ">="
    case LessEqual => "<=" case PlusPlus => "++" case MinusMinus => "--" case Arrow => "->"
    case _ => ""
  }

  /** The reserved word a keyword kind is written with (inverse of KeywordKind). */
  function KeywordSpelling(k: TokenKind): string
  {
    match k
    case And => "and" case Break => "break" case Do => "do" case Else => "else"
    case Enum => "enum" case False => "false" case For => "for" case Fn => "fn"
    case If => "if" case Impl => "impl" case Let => "let" case Mut => "mut"
    case Or => "or" case Print => "print" case Return => "return" case Self => "self"
    case Skip => "skip" case Struct => "struct" case True => "true" case While => "while"
    case _ => ""
  }

  /** Every entry of the one-character table is a one-character kind spelled by its key. */
  lemma SingleTableSound()
    ensures forall c :: SingleKind(c).Some? ==>
      CategoryOf(SingleKind(c).value) == SingleChar && SingleSpelling(SingleKind(c).value) == c
  {
  }

  /** Every one-character kind is reachable from the one-character table. */
  lemma SingleTableComplete()
    ensures forall k :: CategoryOf(k) == SingleChar ==> SingleKind(SingleSpelling(k)) == Some(k)
  {
    forall k | CategoryOf(k) == SingleChar
      ensures SingleKind(SingleSpelling(k)) == Some(k)
    {
      match k
      case LeftParen => case RightParen => case LeftBrace => case RightBrace =>
      case LeftBracket => case RightBracket => case Comma => case Dot => case Minus =>
      case Plus => case Semicolon => case Colon => case Slash => case Star =>
      case Question => case Modulo => case Bang => case Equal => case Greater => case Less =>
    }
  }

  /** The two-character table maps its 7 spellings one-to-one onto the two-character kinds. */
  lemma DoubleTableSound()
    ensures forall a, b :: DoubleKind(a, b).Some? ==>
      CategoryOf(DoubleKind(a, b).value) == TwoChar && DoubleSpelling(DoubleKind(a, b).value) == [a, b]
  {
  }

  lemma DoubleTableComplete()
    ensures forall k :: CategoryOf(k) == TwoChar ==>
      |DoubleSpelling(k)| == 2 && DoubleKind(DoubleSpelling(k)[0], DoubleSpelling(k)[1]) == Some(k)
  {
  }

  /**
   * Both characters of a two-character operator are one-character
   * punctuation, the first is not a slash, and neither is NUL or a newline.
   */
  lemma DoubleTableChars()
    ensures forall a, b :: DoubleKind(a, b).Some? ==>
      && SingleKind(a).Some? && SingleKind(b).Some? && a != '/'
      && a != '\0' && b != '\0' && a != '\n' && b != '\n'
  {
  }

  /** Every keyword kind is found in the reserved-word table under its own spelling. */
  lemma KeywordTableComplete()
    ensures forall k :: CategoryOf(k) == Keyword ==> KeywordKind(KeywordSpelling(k)) == Some(k)
  {
    forall k | CategoryOf(k) == Keyword
      ensures KeywordKind(KeywordSpelling(k)) == Some(k)
    {
      match k
      case And => case Break => case Do => case Else => case Enum => case False =>
      case For => case Fn => case If => case Impl => case Let => case Mut =>
      case Or => case Print => case Return => case Self => case Skip =>
      case Struct => case True => case While =>
    }
  }

  /** The reserved-word table yields only keyword kinds ... */
  lemma KeywordTableKinds()
    ensures forall s :: KeywordKind(s).Some? ==> CategoryOf(KeywordKind(s).value) == Keyword
  {
  }

  /** ... each under its own spelling, so it has no entries besides the 20 keywords. */
  lemma KeywordTableSound()
    ensures forall s :: KeywordKind(s).Some? ==> KeywordSpelling(KeywordKind(s).value) == s
  {
  }
}
