/** Printing and parsing of expressions, between expressions and tokens.

    A printed expression has only the parentheses that a reader needs, so that chains of the same operator
    come back associated to the right. */
module ExprSyntax {
  import opened Wrappers
  import opened Model
  import opened Values

  // `Other` is any token that is not part of an expression, and `End` is what follows the last one.
  datatype Token =
    | Sym(id: Id) | RelOp(rel: Relation) | AndOp | OrOp | NotOp | Open | Close | Other | End

  // ---------- expr_str() ----------

  function Leaf(k: Config, x: Id): Token {
    if k.Item(x).Symbol? then Sym(x) else Other
  }

  function Tokens(k: Config, e: Expr): (ts: seq<Token>)
    ensures |ts| > 0
    decreases e, 0
  {
    match e
    case Ref(id) => [Leaf(k, id)]
    case And(l, r) => Operand(k, l, l.Or?) + [AndOp] + Operand(k, r, r.Or?)
    case Or(l, r) => Operand(k, l, l.And?) + [OrOp] + Operand(k, r, r.And?)
    case Not(o) => [NotOp] + Operand(k, o, !o.Ref?)
    case Rel(rel, l, r) => [Leaf(k, l), RelOp(rel), Leaf(k, r)]
  }

  // _parenthesize()
  function Operand(k: Config, e: Expr, parenthesized: bool): (ts: seq<Token>)
    ensures |ts| > 0
    decreases e, 1
  {
    if parenthesized then [Open] + Tokens(k, e) + [Close] else Tokens(k, e)
  }

  // ---------- _parse_expr() ----------

  datatype Parsed = Parsed(expr: Expr, next: nat)

  // The last token is `End`.
  predicate Terminated(ts: seq<Token>) {
    ts != [] && ts[|ts| - 1] == End
  }

  // With `transformM`, the symbol m stands for m && MODULES. `m` is the symbol m.
  datatype ParseMode = ParseMode(transformM: bool, m: Id)

  function ParseExpr(k: Config, mode: ParseMode, ts: seq<Token>, i: nat): (p: Option<Parsed>)
    requires Terminated(ts) && i < |ts|
    ensures p.Some? ==> i < p.value.next < |ts|
    decreases |ts| - i, 2
  {
    var left := ParseAnd(k, mode, ts, i);
    if left.None? || ts[left.value.next] != OrOp then left
    else
      var right := ParseExpr(k, mode, ts, left.value.next + 1);
      if right.None? then None else Some(Parsed(Or(left.value.expr, right.value.expr), right.value.next))
  }

  // _parse_and_expr()
  function ParseAnd(k: Config, mode: ParseMode, ts: seq<Token>, i: nat): (p: Option<Parsed>)
    requires Terminated(ts) && i < |ts|
    ensures p.Some? ==> i < p.value.next < |ts|
    decreases |ts| - i, 1
  {
    var left := ParseFactor(k, mode, ts, i);
    if left.None? || ts[left.value.next] != AndOp then left
    else
      var right := ParseAnd(k, mode, ts, left.value.next + 1);
      if right.None? then None else Some(Parsed(And(left.value.expr, right.value.expr), right.value.next))
  }

  // _parse_factor()
  function ParseFactor(k: Config, mode: ParseMode, ts: seq<Token>, i: nat): (p: Option<Parsed>)
    requires Terminated(ts) && i < |ts|
    ensures p.Some? ==> i < p.value.next < |ts|
    decreases |ts| - i, 0
  {
    match ts[i]
    case Sym(id) =>
      if !ts[i + 1].RelOp? then
        Some(Parsed(if mode.transformM && id == mode.m then And(Ref(id), Ref(k.modules)) else Ref(id), i + 1))
      else if ts[i + 2].Sym? then Some(Parsed(Rel(ts[i + 1].rel, id, ts[i + 2].id), i + 3))
      else None
    case NotOp =>
      var o := ParseFactor(k, mode, ts, i + 1);
      if o.None? then None else Some(Parsed(Not(o.value.expr), o.value.next))
    case Open =>
      var e := ParseExpr(k, mode, ts, i + 1);
      if e.Some? && ts[e.value.next] == Close then Some(Parsed(e.value.expr, e.value.next + 1)) else None
    case _ => None
  }

  // ---------- Right association ----------

  function JoinAnd(a: Expr, b: Expr): Expr {
    if a.And? then And(a.left, JoinAnd(a.right, b)) else And(a, b)
  }

  function JoinOr(a: Expr, b: Expr): Expr {
    if a.Or? then Or(a.left, JoinOr(a.right, b)) else Or(a, b)
  }

  function ToRight(e: Expr): (r: Expr)
    ensures (r.And? <==> e.And?) && (r.Or? <==> e.Or?) && (r.Ref? <==> e.Ref?)
  {
    match e
    case Ref(_) => e
    case And(l, r) => JoinAnd(ToRight(l), ToRight(r))
    case Or(l, r) => JoinOr(ToRight(l), ToRight(r))
    case Not(o) => Not(ToRight(o))
    case Rel(_, _, _) => e
  }

  lemma {:induction false} JoinAndAssociative(a: Expr, b: Expr, c: Expr)
    ensures JoinAnd(JoinAnd(a, b), c) == JoinAnd(a, JoinAnd(b, c))
    decreases a
  {
    if a.And? {
      JoinAndAssociative(a.right, b, c);
    }
  }

  lemma {:induction false} JoinOrAssociative(a: Expr, b: Expr, c: Expr)
    ensures JoinOr(JoinOr(a, b), c) == JoinOr(a, JoinOr(b, c))
    decreases a
  {
    if a.Or? {
      JoinOrAssociative(a.right, b, c);
    }
  }

  lemma {:induction false} JoinValues(k: Config, v: Valuation, a: Expr, b: Expr)
    ensures ExprValue(k, v, JoinAnd(a, b)) == Min(ExprValue(k, v, a), ExprValue(k, v, b))
    ensures ExprValue(k, v, JoinOr(a, b)) == Max(ExprValue(k, v, a), ExprValue(k, v, b))
    decreases a
  {
    if a.And? || a.Or? {
      JoinValues(k, v, a.right, b);
    }
  }

  // Association does not matter to the value.
  lemma {:induction false} ToRightValue(k: Config, v: Valuation, e: Expr)
    ensures ExprValue(k, v, ToRight(e)) == ExprValue(k, v, e)
    decreases e
  {
    match e
    case And(l, r) =>
      ToRightValue(k, v, l);
      ToRightValue(k, v, r);
      JoinValues(k, v, ToRight(l), ToRight(r));
    case Or(l, r) =>
      ToRightValue(k, v, l);
      ToRightValue(k, v, r);
      JoinValues(k, v, ToRight(l), ToRight(r));
    case Not(o) => ToRightValue(k, v, o);
    case _ =>
  }

  // ---------- Parsing what was printed ----------

  // All operands are symbols; choices cannot be written in expressions.
  predicate SymbolsOnly(k: Config, e: Expr) {
    match e
    case Ref(id) => k.Item(id).Symbol?
    case And(l, r) => SymbolsOnly(k, l) && SymbolsOnly(k, r)
    case Or(l, r) => SymbolsOnly(k, l) && SymbolsOnly(k, r)
    case Not(o) => SymbolsOnly(k, o)
    case Rel(_, l, r) => k.Item(l).Symbol? && k.Item(r).Symbol?
  }

  // `sub` is found in `ts` at `i`, and at least one more token follows.
  ghost predicate At(ts: seq<Token>, i: nat, sub: seq<Token>) {
    i + |sub| < |ts| && ts[i..i + |sub|] == sub
  }

  lemma AtParts(ts: seq<Token>, i: nat, a: seq<Token>, b: seq<Token>, j: nat)
    requires At(ts, i, a + b) && j == i + |a|
    ensures i + |a| <= |ts| && ts[i..j] == a && At(ts, j, b) && (b != [] ==> At(ts, i, a) && ts[j] == b[0])
  {
    assert (a + b)[..|a|] == a && (a + b)[|a|..] == b;
    assert ts[i..i + |a + b|][..|a|] == ts[i..j];
    assert ts[i..i + |a + b|][|a|..] == ts[j..j + |b|];
    if b != [] {
      assert ts[j..j + |b|][0] == ts[j];
    }
  }

  // What is parsed as an operand of && or ||, or together with everything that follows the operator.

  ghost predicate AndResult(k: Config, mode: ParseMode, ts: seq<Token>, i: nat, j: nat, e: Expr)
    requires Terminated(ts) && i < |ts|
  {
    j < |ts|
    && (ts[j] != AndOp && !ts[j].RelOp? ==> ParseAnd(k, mode, ts, i) == Some(Parsed(ToRight(e), j)))
    && (ts[j] == AndOp && ParseAnd(k, mode, ts, j + 1).Some? ==>
          var rest := ParseAnd(k, mode, ts, j + 1).value;
          ParseAnd(k, mode, ts, i) == Some(Parsed(JoinAnd(ToRight(e), rest.expr), rest.next)))
  }

  ghost predicate OrResult(k: Config, mode: ParseMode, ts: seq<Token>, i: nat, j: nat, e: Expr)
    requires Terminated(ts) && i < |ts|
  {
    j < |ts|
    && (ts[j] != OrOp && ts[j] != AndOp && !ts[j].RelOp? ==> ParseExpr(k, mode, ts, i) == Some(Parsed(ToRight(e), j)))
    && (ts[j] == OrOp && ParseExpr(k, mode, ts, j + 1).Some? ==>
          var rest := ParseExpr(k, mode, ts, j + 1).value;
          ParseExpr(k, mode, ts, i) == Some(Parsed(JoinOr(ToRight(e), rest.expr), rest.next)))
  }

  ghost predicate Readable(k: Config, mode: ParseMode, ts: seq<Token>, i: nat, e: Expr) {
    Terminated(ts) && !mode.transformM && i < |ts| && SymbolsOnly(k, e)
  }

  lemma {:induction false} FactorParses(k: Config, mode: ParseMode, ts: seq<Token>, i: nat, e: Expr, j: nat)
    requires Readable(k, mode, ts, i, e) && At(ts, i, Tokens(k, e)) && j == i + |Tokens(k, e)|
    requires !e.And? && !e.Or? && !ts[j].RelOp?
    ensures ParseFactor(k, mode, ts, i) == Some(Parsed(ToRight(e), j))
    decreases e, 0
  {
    if e.Not? {
      var next: nat := i + 1;
      AtParts(ts, i, [NotOp], Operand(k, e.operand, !e.operand.Ref?), next);
      if e.operand.Ref? {
        FactorParses(k, mode, ts, next, e.operand, j);
      } else {
        ParenthesesParse(k, mode, ts, next, e.operand, j);
      }
    } else {
      assert forall n :: 0 <= n < |Tokens(k, e)| ==> ts[i..j][n] == ts[i + n];
    }
  }

  lemma {:induction false} ParenthesesParse(k: Config, mode: ParseMode, ts: seq<Token>, i: nat, e: Expr, j: nat)
    requires Readable(k, mode, ts, i, e) && At(ts, i, Operand(k, e, true)) && j == i + |Operand(k, e, true)|
    ensures ParseFactor(k, mode, ts, i) == Some(Parsed(ToRight(e), j))
    decreases e, 4
  {
    var next: nat, close: nat := i + 1, i + 1 + |Tokens(k, e)|;
    assert [Open] + Tokens(k, e) + [Close] == [Open] + (Tokens(k, e) + [Close]);
    AtParts(ts, i, [Open], Tokens(k, e) + [Close], next);
    AtParts(ts, next, Tokens(k, e), [Close], close);
    OrParses(k, mode, ts, next, e, close);
  }

  lemma JoinAndResults(k: Config, mode: ParseMode, ts: seq<Token>, i: nat, op: nat, next: nat, j: nat, l: Expr, r: Expr)
    requires Terminated(ts) && i < |ts| && op < |ts| && next < |ts| && next == op + 1 && ts[op] == AndOp
    requires AndResult(k, mode, ts, i, op, l) && AndResult(k, mode, ts, next, j, r)
    ensures AndResult(k, mode, ts, i, j, And(l, r))
  {
    if ts[j] == AndOp && ParseAnd(k, mode, ts, j + 1).Some? {
      JoinAndAssociative(ToRight(l), ToRight(r), ParseAnd(k, mode, ts, j + 1).value.expr);
    }
  }

  lemma JoinOrResults(k: Config, mode: ParseMode, ts: seq<Token>, i: nat, op: nat, next: nat, j: nat, l: Expr, r: Expr)
    requires Terminated(ts) && i < |ts| && op < |ts| && next < |ts| && next == op + 1 && ts[op] == OrOp
    requires OrResult(k, mode, ts, i, op, l) && OrResult(k, mode, ts, next, j, r)
    ensures OrResult(k, mode, ts, i, j, Or(l, r))
  {
    if ts[j] == OrOp && ParseExpr(k, mode, ts, j + 1).Some? {
      JoinOrAssociative(ToRight(l), ToRight(r), ParseExpr(k, mode, ts, j + 1).value.expr);
    }
  }

  lemma {:induction false} AndParses(k: Config, mode: ParseMode, ts: seq<Token>, i: nat, e: Expr, j: nat)
    requires Readable(k, mode, ts, i, e) && !e.Or? && At(ts, i, Tokens(k, e)) && j == i + |Tokens(k, e)|
    ensures AndResult(k, mode, ts, i, j, e)
    decreases e, 1
  {
    if e.And? {
      var first, second := Operand(k, e.left, e.left.Or?), Operand(k, e.right, e.right.Or?);
      var op: nat, next: nat := i + |first|, i + |first| + 1;
      assert first + [AndOp] + second == first + ([AndOp] + second);
      AtParts(ts, i, first, [AndOp] + second, op);
      AtParts(ts, op, [AndOp], second, next);
      AndOperandParses(k, mode, ts, next, e.right, j);
      AndOperandParses(k, mode, ts, i, e.left, op);
      JoinAndResults(k, mode, ts, i, op, next, j, e.left, e.right);
    } else if !ts[j].RelOp? {
      FactorParses(k, mode, ts, i, e, j);
    }
  }

  lemma {:induction false} AndOperandParses(k: Config, mode: ParseMode, ts: seq<Token>, i: nat, e: Expr, j: nat)
    requires Readable(k, mode, ts, i, e) && At(ts, i, Operand(k, e, e.Or?)) && j == i + |Operand(k, e, e.Or?)|
    ensures AndResult(k, mode, ts, i, j, e)
    decreases e, 5
  {
    if e.Or? {
      ParenthesesParse(k, mode, ts, i, e, j);
    } else {
      AndParses(k, mode, ts, i, e, j);
    }
  }

  lemma {:induction false} OrParses(k: Config, mode: ParseMode, ts: seq<Token>, i: nat, e: Expr, j: nat)
    requires Readable(k, mode, ts, i, e) && At(ts, i, Tokens(k, e)) && j == i + |Tokens(k, e)|
    ensures OrResult(k, mode, ts, i, j, e)
    decreases e, 2
  {
    if e.Or? {
      var first, second := Operand(k, e.left, e.left.And?), Operand(k, e.right, e.right.And?);
      var op: nat, next: nat := i + |first|, i + |first| + 1;
      assert first + [OrOp] + second == first + ([OrOp] + second);
      AtParts(ts, i, first, [OrOp] + second, op);
      AtParts(ts, op, [OrOp], second, next);
      OrOperandParses(k, mode, ts, next, e.right, j);
      OrOperandParses(k, mode, ts, i, e.left, op);
      JoinOrResults(k, mode, ts, i, op, next, j, e.left, e.right);
    } else {
      AndParses(k, mode, ts, i, e, j);
    }
  }

  lemma {:induction false} OrOperandParses(k: Config, mode: ParseMode, ts: seq<Token>, i: nat, e: Expr, j: nat)
    requires Readable(k, mode, ts, i, e) && At(ts, i, Operand(k, e, e.And?)) && j == i + |Operand(k, e, e.And?)|
    ensures OrResult(k, mode, ts, i, j, e)
    decreases e, 5
  {
    if e.And? {
      ParenthesesParse(k, mode, ts, i, e, j);
    } else {
      OrParses(k, mode, ts, i, e, j);
    }
  }

  // Parsing the tokens of a printed expression consumes exactly these tokens, and gives the expression with
  // its chains associated to the right, which has the same value whatever the values of the symbols.
  lemma ParsePrinted(k: Config, mode: ParseMode, e: Expr, rest: seq<Token>)
    requires SymbolsOnly(k, e) && !mode.transformM && Terminated(rest)
    requires !rest[0].AndOp? && !rest[0].OrOp? && !rest[0].RelOp?
    ensures Terminated(Tokens(k, e) + rest)
    ensures ParseExpr(k, mode, Tokens(k, e) + rest, 0) == Some(Parsed(ToRight(e), |Tokens(k, e)|))
    ensures forall v :: ExprValue(k, v, ToRight(e)) == ExprValue(k, v, e)
  {
    var ts := Tokens(k, e) + rest;
    assert ts[0..|Tokens(k, e)|] == Tokens(k, e);
    OrParses(k, mode, ts, 0, e, |Tokens(k, e)|);
    forall v ensures ExprValue(k, v, ToRight(e)) == ExprValue(k, v, e) {
      ToRightValue(k, v, e);
    }
  }

  // Printing what was parsed from a printed expression gives the same tokens again.
  lemma {:induction false} ToRightTokens(k: Config, e: Expr)
    ensures Tokens(k, ToRight(e)) == Tokens(k, e)
    decreases e
  {
    match e
    case And(l, r) =>
      ToRightTokens(k, l);
      ToRightTokens(k, r);
      JoinAndTokens(k, ToRight(l), ToRight(r));
    case Or(l, r) =>
      ToRightTokens(k, l);
      ToRightTokens(k, r);
      JoinOrTokens(k, ToRight(l), ToRight(r));
    case Not(o) => ToRightTokens(k, o);
    case _ =>
  }

  lemma {:induction false} JoinAndTokens(k: Config, a: Expr, b: Expr)
    ensures Tokens(k, JoinAnd(a, b)) == Operand(k, a, a.Or?) + [AndOp] + Operand(k, b, b.Or?)
    decreases a
  {
    if a.And? {
      JoinAndTokens(k, a.right, b);
      var x, y, z := Operand(k, a.left, a.left.Or?), Operand(k, a.right, a.right.Or?), Operand(k, b, b.Or?);
      assert x + [AndOp] + (y + [AndOp] + z) == (x + [AndOp] + y) + [AndOp] + z;
    }
  }

  lemma {:induction false} JoinOrTokens(k: Config, a: Expr, b: Expr)
    ensures Tokens(k, JoinOr(a, b)) == Operand(k, a, a.And?) + [OrOp] + Operand(k, b, b.And?)
    decreases a
  {
    if a.Or? {
      JoinOrTokens(k, a.right, b);
      var x, y, z := Operand(k, a.left, a.left.And?), Operand(k, a.right, a.right.And?), Operand(k, b, b.And?);
      assert x + [OrOp] + (y + [OrOp] + z) == (x + [OrOp] + y) + [OrOp] + z;
    }
  }

  // ---------- The parser, which advances through the tokens in place ----------

  class Parser {
    const k: Config
    const mode: ParseMode
    const tokens: seq<Token>
    var i: nat

    ghost predicate Valid()
      reads this
    {
      Terminated(tokens) && i < |tokens|
    }

    constructor (k: Config, mode: ParseMode, tokens: seq<Token>)
      requires Terminated(tokens)
      ensures Valid() && this.k == k && this.mode == mode && this.tokens == tokens && i == 0
    {
      this.k, this.mode, this.tokens, i := k, mode, tokens, 0;
    }

    // _check_token()
    method CheckToken(token: Token) returns (found: bool)
      requires Valid() && token != End
      modifies `i
      ensures Valid() && found == (tokens[old(i)] == token) && i == if found then old(i) + 1 else old(i)
    {
      found := tokens[i] == token;
      if found {
        i := i + 1;
      }
    }

    // None stands for the exception.
    method Expr() returns (e: Option<Expr>)
      requires Valid()
      modifies `i
      ensures match ParseExpr(k, mode, tokens, old(i))
              case None => e == None
              case Some(p) => Valid() && e == Some(p.expr) && i == p.next
      decreases |tokens| - i, 2
    {
      e := AndExpr();
      if e.Some? {
        var more := CheckToken(OrOp);
        if more {
          var right := Expr();
          e := if right.Some? then Some(Or(e.value, right.value)) else None;
        }
      }
    }

    method AndExpr() returns (e: Option<Expr>)
      requires Valid()
      modifies `i
      ensures match ParseAnd(k, mode, tokens, old(i))
              case None => e == None
              case Some(p) => Valid() && e == Some(p.expr) && i == p.next
      decreases |tokens| - i, 1
    {
      e := Factor();
      if e.Some? {
        var more := CheckToken(AndOp);
        if more {
          var right := AndExpr();
          e := if right.Some? then Some(And(e.value, right.value)) else None;
        }
      }
    }

    method Factor() returns (e: Option<Expr>)
      requires Valid()
      modifies `i
      ensures match ParseFactor(k, mode, tokens, old(i))
              case None => e == None
              case Some(p) => Valid() && e == Some(p.expr) && i == p.next
      decreases |tokens| - i, 0
    {
      var token := tokens[i];
      if token == End {
        return None;
      }
      i := i + 1;
      match token
      case Sym(id) =>
        if !tokens[i].RelOp? {
          return Some(if mode.transformM && id == mode.m then And(Ref(id), Ref(k.modules)) else Ref(id));
        }
        var rel := tokens[i].rel;
        i := i + 1;
        if !tokens[i].Sym? {
          return None;
        }
        e := Some(Rel(rel, id, tokens[i].id));
        i := i + 1;
      case NotOp =>
        e := Factor();
        if e.Some? {
          e := Some(Not(e.value));
        }
      case Open =>
        e := Expr();
        if e.Some? {
          var closed := CheckToken(Close);
          if !closed {
            e := None;
          }
        }
      case _ => e := None;
    }
  }

  // Printing an expression and reading it back.
  method Reread(k: Config, m: Id, e: Expr) returns (r: Option<Expr>)
    requires SymbolsOnly(k, e)
    ensures r.Some? && Tokens(k, r.value) == Tokens(k, e)
    ensures forall v :: ExprValue(k, v, r.value) == ExprValue(k, v, e)
  {
    var mode := ParseMode(false, m);
    ParsePrinted(k, mode, e, [End]);
    ToRightTokens(k, e);
    var parser := new Parser(k, mode, Tokens(k, e) + [End]);
    r := parser.Expr();
  }
}
