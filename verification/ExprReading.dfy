/** What reading an expression gives: no token is lost, && binds more closely than ||, ! and parentheses more
    closely than both, and the symbol m stands for m && MODULES where it should. */
module ExprReading {
  import opened Wrappers
  import opened Model
  import opened ExprSyntax

  // ---------- Precedence ----------

  // Three operands with operators between them.
  lemma Precedence(k: Config, mode: ParseMode, a: Id, b: Id, c: Id)
    requires !mode.transformM
    ensures ParseExpr(k, mode, [Sym(a), OrOp, Sym(b), AndOp, Sym(c), End], 0)
         == Some(Parsed(Or(Ref(a), And(Ref(b), Ref(c))), 5))
    ensures ParseExpr(k, mode, [Sym(a), AndOp, Sym(b), OrOp, Sym(c), End], 0)
         == Some(Parsed(Or(And(Ref(a), Ref(b)), Ref(c)), 5))
  {
    var one, two := [Sym(a), OrOp, Sym(b), AndOp, Sym(c), End], [Sym(a), AndOp, Sym(b), OrOp, Sym(c), End];
    assert ParseAnd(k, mode, one, 4) == Some(Parsed(Ref(c), 5));
    assert ParseAnd(k, mode, one, 2) == Some(Parsed(And(Ref(b), Ref(c)), 5));
    assert ParseExpr(k, mode, one, 2) == Some(Parsed(And(Ref(b), Ref(c)), 5));
    assert ParseAnd(k, mode, one, 0) == Some(Parsed(Ref(a), 1));
    assert ParseAnd(k, mode, two, 2) == Some(Parsed(Ref(b), 3));
    assert ParseAnd(k, mode, two, 0) == Some(Parsed(And(Ref(a), Ref(b)), 3));
    assert ParseAnd(k, mode, two, 4) == Some(Parsed(Ref(c), 5));
    assert ParseExpr(k, mode, two, 4) == Some(Parsed(Ref(c), 5));
  }

  // Negation applies to the operand that follows, and parentheses to all that is between them.
  lemma NegationBinds(k: Config, mode: ParseMode, a: Id, b: Id)
    requires !mode.transformM
    ensures ParseExpr(k, mode, [NotOp, Sym(a), AndOp, Sym(b), End], 0) == Some(Parsed(And(Not(Ref(a)), Ref(b)), 4))
    ensures ParseExpr(k, mode, [NotOp, Open, Sym(a), AndOp, Sym(b), Close, End], 0)
         == Some(Parsed(Not(And(Ref(a), Ref(b))), 6))
  {
    var one, two := [NotOp, Sym(a), AndOp, Sym(b), End], [NotOp, Open, Sym(a), AndOp, Sym(b), Close, End];
    assert ParseFactor(k, mode, one, 0) == Some(Parsed(Not(Ref(a)), 2));
    assert ParseAnd(k, mode, one, 3) == Some(Parsed(Ref(b), 4));
    assert ParseAnd(k, mode, two, 4) == Some(Parsed(Ref(b), 5));
    assert ParseAnd(k, mode, two, 2) == Some(Parsed(And(Ref(a), Ref(b)), 5));
    assert ParseExpr(k, mode, two, 2) == Some(Parsed(And(Ref(a), Ref(b)), 5));
    assert ParseFactor(k, mode, two, 1) == Some(Parsed(And(Ref(a), Ref(b)), 6));
    assert ParseFactor(k, mode, two, 0) == Some(Parsed(Not(And(Ref(a), Ref(b))), 6));
  }

  // ---------- All tokens ----------

  // What is left of tokens without parentheses.
  function Bare(ts: seq<Token>): seq<Token> {
    if ts == [] then []
    else if ts[0] == Open || ts[0] == Close then Bare(ts[1..])
    else [ts[0]] + Bare(ts[1..])
  }

  lemma {:induction false} BareConcat(a: seq<Token>, b: seq<Token>)
    ensures Bare(a + b) == Bare(a) + Bare(b)
    decreases |a|
  {
    if a == [] {
      assert a + b == b;
    } else {
      assert (a + b)[1..] == a[1..] + b && (a + b)[0] == a[0];
      BareConcat(a[1..], b);
    }
  }

  // The operands and operators of an expression from left to right.
  function InOrder(e: Expr): seq<Token> {
    match e
    case Ref(id) => [Sym(id)]
    case And(l, r) => InOrder(l) + [AndOp] + InOrder(r)
    case Or(l, r) => InOrder(l) + [OrOp] + InOrder(r)
    case Not(o) => [NotOp] + InOrder(o)
    case Rel(rel, l, r) => [Sym(l), RelOp(rel), Sym(r)]
  }

  // Between two tokens of a sequence.
  ghost predicate Spells(ts: seq<Token>, i: nat, p: Option<Parsed>) {
    p.Some? ==> i <= p.value.next <= |ts| && Bare(ts[i..p.value.next]) == InOrder(p.value.expr)
  }

  lemma BareBetween(ts: seq<Token>, i: nat, j: nat, n: nat)
    requires i <= j <= n <= |ts|
    ensures Bare(ts[i..n]) == Bare(ts[i..j]) + Bare(ts[j..n])
  {
    assert ts[i..n] == ts[i..j] + ts[j..n];
    BareConcat(ts[i..j], ts[j..n]);
  }

  lemma BareOne(ts: seq<Token>, i: nat, next: nat)
    requires i < |ts| && next == i + 1
    ensures Bare(ts[i..next]) == if ts[i] == Open || ts[i] == Close then [] else [ts[i]]
  {
    assert ts[i..next] == [ts[i]];
    assert [ts[i]][1..] == [];
  }

  // Two operands and what is between them.
  lemma BareThree(ts: seq<Token>, i: nat, op: nat, next: nat, j: nat)
    requires i <= op < next <= j <= |ts| && next == op + 1
    ensures Bare(ts[i..j])
         == Bare(ts[i..op]) + (if ts[op] == Open || ts[op] == Close then [] else [ts[op]]) + Bare(ts[next..j])
  {
    BareBetween(ts, i, op, j);
    BareBetween(ts, op, next, j);
    BareOne(ts, op, next);
    var a, b, c := Bare(ts[i..op]), Bare(ts[op..next]), Bare(ts[next..j]);
    assert a + (b + c) == a + b + c;
  }

  // An expression that has been read has the operands and operators of the text in their order.
  lemma {:induction false} ExprSpells(k: Config, mode: ParseMode, ts: seq<Token>, i: nat)
    requires Terminated(ts) && i < |ts| && !mode.transformM
    ensures Spells(ts, i, ParseExpr(k, mode, ts, i))
    decreases |ts| - i, 2
  {
    var left := ParseAnd(k, mode, ts, i);
    AndSpells(k, mode, ts, i);
    if left.Some? && ts[left.value.next] == OrOp {
      var op := left.value.next;
      var next := op + 1;
      ExprSpells(k, mode, ts, next);
      var right := ParseExpr(k, mode, ts, next);
      if right.Some? {
        BareThree(ts, i, op, next, right.value.next);
      }
    }
  }

  lemma {:induction false} AndSpells(k: Config, mode: ParseMode, ts: seq<Token>, i: nat)
    requires Terminated(ts) && i < |ts| && !mode.transformM
    ensures Spells(ts, i, ParseAnd(k, mode, ts, i))
    decreases |ts| - i, 1
  {
    var left := ParseFactor(k, mode, ts, i);
    FactorSpells(k, mode, ts, i);
    if left.Some? && ts[left.value.next] == AndOp {
      var op := left.value.next;
      var next := op + 1;
      AndSpells(k, mode, ts, next);
      var right := ParseAnd(k, mode, ts, next);
      if right.Some? {
        BareThree(ts, i, op, next, right.value.next);
      }
    }
  }

  lemma {:induction false} FactorSpells(k: Config, mode: ParseMode, ts: seq<Token>, i: nat)
    requires Terminated(ts) && i < |ts| && !mode.transformM
    ensures Spells(ts, i, ParseFactor(k, mode, ts, i))
    decreases |ts| - i, 0
  {
    var p, next: nat := ParseFactor(k, mode, ts, i), i + 1;
    if p.Some? {
      BareThree(ts, i, i, next, p.value.next);
      assert ts[i..i] == [];
      match ts[i]
      case Sym(_) =>
        if ts[next].RelOp? {
          var last := next + 1;
          BareThree(ts, next, next, last, p.value.next);
          BareOne(ts, last, p.value.next);
          assert ts[next..next] == [];
        } else {
          assert ts[next..next] == [];
        }
      case NotOp => FactorSpells(k, mode, ts, next);
      case Open =>
        ExprSpells(k, mode, ts, next);
        var close := ParseExpr(k, mode, ts, next).value.next;
        BareThree(ts, next, close, close + 1, p.value.next);
        assert ts[close + 1..p.value.next] == [];
    }
  }

  // ---------- m ----------

  // The expression with m && MODULES for m, except in relations.
  function WithModules(e: Expr, m: Id, modules: Id): Expr {
    match e
    case Ref(id) => if id == m then And(e, Ref(modules)) else e
    case And(l, r) => And(WithModules(l, m, modules), WithModules(r, m, modules))
    case Or(l, r) => Or(WithModules(l, m, modules), WithModules(r, m, modules))
    case Not(o) => Not(WithModules(o, m, modules))
    case Rel(_, _, _) => e
  }

  function Changed(p: Option<Parsed>, m: Id, modules: Id): Option<Parsed> {
    if p.None? then None else Some(Parsed(WithModules(p.value.expr, m, modules), p.value.next))
  }

  // Where m is transformed, the same is read but for that.
  lemma {:induction false} ExprTransformed(k: Config, m: Id, ts: seq<Token>, i: nat)
    requires Terminated(ts) && i < |ts|
    ensures ParseExpr(k, ParseMode(true, m), ts, i)
         == Changed(ParseExpr(k, ParseMode(false, m), ts, i), m, k.modules)
    decreases |ts| - i, 2
  {
    AndTransformed(k, m, ts, i);
    var left := ParseAnd(k, ParseMode(false, m), ts, i);
    if left.Some? && ts[left.value.next] == OrOp {
      ExprTransformed(k, m, ts, left.value.next + 1);
    }
  }

  lemma {:induction false} AndTransformed(k: Config, m: Id, ts: seq<Token>, i: nat)
    requires Terminated(ts) && i < |ts|
    ensures ParseAnd(k, ParseMode(true, m), ts, i)
         == Changed(ParseAnd(k, ParseMode(false, m), ts, i), m, k.modules)
    decreases |ts| - i, 1
  {
    FactorTransformed(k, m, ts, i);
    var left := ParseFactor(k, ParseMode(false, m), ts, i);
    if left.Some? && ts[left.value.next] == AndOp {
      AndTransformed(k, m, ts, left.value.next + 1);
    }
  }

  lemma {:induction false} FactorTransformed(k: Config, m: Id, ts: seq<Token>, i: nat)
    requires Terminated(ts) && i < |ts|
    ensures ParseFactor(k, ParseMode(true, m), ts, i)
         == Changed(ParseFactor(k, ParseMode(false, m), ts, i), m, k.modules)
    decreases |ts| - i, 0
  {
    var next: nat := i + 1;
    if ts[i] == NotOp {
      FactorTransformed(k, m, ts, next);
    } else if ts[i] == Open {
      ExprTransformed(k, m, ts, next);
    } else {
      SymbolTransformed(k, m, ts, i);
    }
  }

  lemma SymbolTransformed(k: Config, m: Id, ts: seq<Token>, i: nat)
    requires Terminated(ts) && i < |ts| && ts[i] != NotOp && ts[i] != Open
    ensures ParseFactor(k, ParseMode(true, m), ts, i)
         == Changed(ParseFactor(k, ParseMode(false, m), ts, i), m, k.modules)
  {
  }
}
