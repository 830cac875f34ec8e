/** Printing Kconfig expressions and parsing them back. */
module KconfigSyntax {
  import opened Kernels
  import opened KconfigModel

  datatype Token = TItem(item: Item) | TAnd | TOr | TNot | TRel(op: Relation) | TOpen | TClose

  // --- expr_str ---

  /** The tokens of the string that expr_str gives. */
  function Print(e: Expr): seq<Token>
    decreases e, 0
  {
    match e
    case Atom(i) => [TItem(i)]
    case And(l, r) => PrintUnderAnd(l) + [TAnd] + PrintUnderAnd(r)
    case Or(l, r) => PrintUnderOr(l) + [TOr] + PrintUnderOr(r)
    case Not(a) => [TNot] + (if a.Atom? then [TItem(a.item)] else [TOpen] + Print(a) + [TClose])
    case Rel(op, a, b) => [TItem(a), TRel(op), TItem(b)]
  }

  // _parenthesize(expr, OR)
  function PrintUnderAnd(e: Expr): seq<Token>
    decreases e, 1
  {
    if e.Or? then [TOpen] + Print(e) + [TClose] else Print(e)
  }

  // _parenthesize(expr, AND)
  function PrintUnderOr(e: Expr): seq<Token>
    decreases e, 1
  {
    if e.And? then [TOpen] + Print(e) + [TClose] else Print(e)
  }

  // --- the parser, as functions of the tokens left ---

  type Parsed = Option<(Expr, seq<Token>)>

  // A plain m is rewritten to m && MODULES on demand.
  function PlainItem(i: Item, transform: bool, modules: Id): Expr {
    if transform && i == Const(1) then And(Atom(Const(1)), Atom(Sym(modules))) else Atom(i)
  }

  function ParseExpr(ts: seq<Token>, tm: bool, m: Id): (r: Parsed)
    ensures r.Some? ==> |r.value.1| < |ts|
    decreases |ts|, 2
  {
    var p := ParseAnd(ts, tm, m);
    if p == None || p.value.1 == [] || p.value.1[0] != TOr then p
    else
      var q := ParseExpr(p.value.1[1..], tm, m);
      if q == None then None else Some((Or(p.value.0, q.value.0), q.value.1))
  }

  function ParseAnd(ts: seq<Token>, tm: bool, m: Id): (r: Parsed)
    ensures r.Some? ==> |r.value.1| < |ts|
    decreases |ts|, 1
  {
    var p := ParseFactor(ts, tm, m);
    if p == None || p.value.1 == [] || p.value.1[0] != TAnd then p
    else
      var q := ParseAnd(p.value.1[1..], tm, m);
      if q == None then None else Some((And(p.value.0, q.value.0), q.value.1))
  }

  function ParseFactor(ts: seq<Token>, tm: bool, m: Id): (r: Parsed)
    ensures r.Some? ==> |r.value.1| < |ts|
    decreases |ts|, 0
  {
    if ts == [] then None
    else match ts[0]
      case TItem(i) =>
        if |ts| > 1 && ts[1].TRel? then
          if |ts| > 2 && ts[2].TItem? then Some((Rel(ts[1].op, i, ts[2].item), ts[3..])) else None
        else Some((PlainItem(i, tm, m), ts[1..]))
      case TNot =>
        var p := ParseFactor(ts[1..], tm, m);
        if p == None then None else Some((Not(p.value.0), p.value.1))
      case TOpen =>
        var p := ParseExpr(ts[1..], tm, m);
        if p == None || p.value.1 == [] || p.value.1[0] != TClose then None
        else Some((p.value.0, p.value.1[1..]))
      case _ => None
  }

  // --- what comes back ---

  /** AND and OR chains regrouped to the right. */
  function RightNest(e: Expr): Expr
    decreases e, 0
  {
    match e
    case Atom(i) => e
    case And(l, r) => AndChain(l, RightNest(r))
    case Or(l, r) => OrChain(l, RightNest(r))
    case Not(a) => Not(RightNest(a))
    case Rel(op, a, b) => e
  }

  function AndChain(l: Expr, x: Expr): Expr
    decreases l, 1
  {
    if l.And? then AndChain(l.left, AndChain(l.right, x)) else And(RightNest(l), x)
  }

  function OrChain(l: Expr, x: Expr): Expr
    decreases l, 1
  {
    if l.Or? then OrChain(l.left, OrChain(l.right, x)) else Or(RightNest(l), x)
  }

  /** Every plain m replaced by m && MODULES. */
  function Rewrite(e: Expr, tm: bool, m: Id): Expr {
    match e
    case Atom(i) => PlainItem(i, tm, m)
    case And(l, r) => And(Rewrite(l, tm, m), Rewrite(r, tm, m))
    case Or(l, r) => Or(Rewrite(l, tm, m), Rewrite(r, tm, m))
    case Not(a) => Not(Rewrite(a, tm, m))
    case Rel(op, a, b) => e
  }

  ghost predicate StartsNot(ts: seq<Token>, ands: bool, ors: bool) {
    ts == [] || (!ts[0].TRel? && (ands ==> ts[0] != TAnd) && (ors ==> ts[0] != TOr))
  }

  lemma {:induction false} ParseParens(e: Expr, rest: seq<Token>, tm: bool, m: Id)
    ensures ParseFactor([TOpen] + Print(e) + [TClose] + rest, tm, m) == Some((Rewrite(RightNest(e), tm, m), rest))
    decreases e, 3
  {
    var ts := [TOpen] + Print(e) + [TClose] + rest;
    assert ts[1..] == Print(e) + ([TClose] + rest);
    ParsePrinted(e, [TClose] + rest, tm, m);
    assert ([TClose] + rest)[1..] == rest;
  }

  lemma {:induction false} ParseFactorPrinted(e: Expr, rest: seq<Token>, tm: bool, m: Id)
    requires (e.Atom? || e.Rel? || e.Not?) && StartsNot(rest, false, false)
    ensures ParseFactor(Print(e) + rest, tm, m) == Some((Rewrite(RightNest(e), tm, m), rest))
    decreases e, 0
  {
    var ts := Print(e) + rest;
    match e
    case Atom(i) => assert ts[1..] == rest;
    case Rel(op, a, b) => assert ts[3..] == rest;
    case Not(a) =>
      if a.Atom? {
        assert ts[1..] == Print(a) + rest;
        ParseFactorPrinted(a, rest, tm, m);
      } else {
        assert ts[1..] == [TOpen] + Print(a) + [TClose] + rest;
        ParseParens(a, rest, tm, m);
      }
  }

  // An operand of && that is not itself an && is one factor; and so for ||.
  lemma {:induction false} ParseAndOperand(e: Expr, rest: seq<Token>, tm: bool, m: Id)
    requires !e.And? && StartsNot(rest, false, false)
    ensures ParseFactor(PrintUnderAnd(e) + rest, tm, m) == Some((Rewrite(RightNest(e), tm, m), rest))
    decreases e, 4
  {
    if e.Or? {
      ParseParens(e, rest, tm, m);
    } else {
      ParseFactorPrinted(e, rest, tm, m);
    }
  }

  lemma {:induction false} ParseOrOperand(e: Expr, rest: seq<Token>, tm: bool, m: Id)
    requires !e.Or? && StartsNot(rest, true, false)
    ensures ParseAnd(PrintUnderOr(e) + rest, tm, m) == Some((Rewrite(RightNest(e), tm, m), rest))
    decreases e, 4
  {
    if e.And? {
      ParseParens(e, rest, tm, m);
    } else {
      ParseFactorPrinted(e, rest, tm, m);
    }
  }

  lemma {:induction false} ParseAndChain(l: Expr, x: Expr, tail: seq<Token>, rest: seq<Token>, tm: bool, m: Id)
    requires ParseAnd(tail, tm, m) == Some((Rewrite(x, tm, m), rest))
    ensures ParseAnd(PrintUnderAnd(l) + [TAnd] + tail, tm, m) == Some((Rewrite(AndChain(l, x), tm, m), rest))
    decreases l, 5
  {
    if l.And? {
      var tail' := PrintUnderAnd(l.right) + [TAnd] + tail;
      ParseAndChain(l.right, x, tail, rest, tm, m);
      ParseAndChain(l.left, AndChain(l.right, x), tail', rest, tm, m);
      assert PrintUnderAnd(l) + [TAnd] + tail == PrintUnderAnd(l.left) + [TAnd] + tail';
    } else {
      ParseAndOperand(l, [TAnd] + tail, tm, m);
      assert PrintUnderAnd(l) + [TAnd] + tail == PrintUnderAnd(l) + ([TAnd] + tail);
      assert ([TAnd] + tail)[1..] == tail;
    }
  }

  lemma {:induction false} ParseOrChain(l: Expr, x: Expr, tail: seq<Token>, rest: seq<Token>, tm: bool, m: Id)
    requires ParseExpr(tail, tm, m) == Some((Rewrite(x, tm, m), rest))
    ensures ParseExpr(PrintUnderOr(l) + [TOr] + tail, tm, m) == Some((Rewrite(OrChain(l, x), tm, m), rest))
    decreases l, 5
  {
    if l.Or? {
      var tail' := PrintUnderOr(l.right) + [TOr] + tail;
      ParseOrChain(l.right, x, tail, rest, tm, m);
      ParseOrChain(l.left, OrChain(l.right, x), tail', rest, tm, m);
      assert PrintUnderOr(l) + [TOr] + tail == PrintUnderOr(l.left) + [TOr] + tail';
    } else {
      ParseOrOperand(l, [TOr] + tail, tm, m);
      assert PrintUnderOr(l) + [TOr] + tail == PrintUnderOr(l) + ([TOr] + tail);
      assert ([TOr] + tail)[1..] == tail;
    }
  }

  lemma {:induction false} ParseAndPrinted(e: Expr, rest: seq<Token>, tm: bool, m: Id)
    requires !e.Or? && StartsNot(rest, true, false)
    ensures ParseAnd(Print(e) + rest, tm, m) == Some((Rewrite(RightNest(e), tm, m), rest))
    decreases e, 1
  {
    if e.And? {
      if e.right.Or? {
        ParseParens(e.right, rest, tm, m);
      } else {
        ParseAndPrinted(e.right, rest, tm, m);
      }
      ParseAndChain(e.left, RightNest(e.right), PrintUnderAnd(e.right) + rest, rest, tm, m);
      assert Print(e) + rest == PrintUnderAnd(e.left) + [TAnd] + (PrintUnderAnd(e.right) + rest);
    } else {
      ParseFactorPrinted(e, rest, tm, m);
    }
  }

  /** Parsing what was printed gives the expression back, regrouped to the right. */
  lemma {:induction false} ParsePrinted(e: Expr, rest: seq<Token>, tm: bool, m: Id)
    requires StartsNot(rest, true, true)
    ensures ParseExpr(Print(e) + rest, tm, m) == Some((Rewrite(RightNest(e), tm, m), rest))
    decreases e, 2
  {
    if e.Or? {
      if e.right.And? {
        ParseParens(e.right, rest, tm, m);
      } else {
        ParsePrinted(e.right, rest, tm, m);
      }
      ParseOrChain(e.left, RightNest(e.right), PrintUnderOr(e.right) + rest, rest, tm, m);
      assert Print(e) + rest == PrintUnderOr(e.left) + [TOr] + (PrintUnderOr(e.right) + rest);
    } else {
      ParseAndPrinted(e, rest, tm, m);
    }
  }

  // --- regrouping keeps the value ---

  lemma {:induction false} AndChainMeaning(l: Expr, x: Expr, env: map<Id, Tri>)
    ensures ExprMeaning(AndChain(l, x), env) == Min(ExprMeaning(l, env), ExprMeaning(x, env))
    decreases l, 1
  {
    if l.And? {
      AndChainMeaning(l.right, x, env);
      AndChainMeaning(l.left, AndChain(l.right, x), env);
    } else {
      RightNestMeaning(l, env);
    }
  }

  lemma {:induction false} OrChainMeaning(l: Expr, x: Expr, env: map<Id, Tri>)
    ensures ExprMeaning(OrChain(l, x), env) == Max(ExprMeaning(l, env), ExprMeaning(x, env))
    decreases l, 1
  {
    if l.Or? {
      OrChainMeaning(l.right, x, env);
      OrChainMeaning(l.left, OrChain(l.right, x), env);
    } else {
      RightNestMeaning(l, env);
    }
  }

  lemma {:induction false} RightNestMeaning(e: Expr, env: map<Id, Tri>)
    ensures ExprMeaning(RightNest(e), env) == ExprMeaning(e, env)
    decreases e, 0
  {
    match e
    case Atom(i) =>
    case And(l, r) => RightNestMeaning(r, env); AndChainMeaning(l, RightNest(r), env);
    case Or(l, r) => RightNestMeaning(r, env); OrChainMeaning(l, RightNest(r), env);
    case Not(a) => RightNestMeaning(a, env);
    case Rel(op, a, b) =>
  }

  // An item that no relation follows is a factor by itself.
  lemma ItemFactor(i: Item, rest: seq<Token>, m: Id)
    requires rest == [] || !rest[0].TRel?
    ensures ParseFactor([TItem(i)] + rest, false, m) == Some((Atom(i), rest))
  {
    assert ([TItem(i)] + rest)[1..] == rest;
  }

  // So is a conjunction by itself if && does not follow, and an expression if || does not either.
  lemma ItemAlone(i: Item, rest: seq<Token>, m: Id)
    requires rest == [] || (!rest[0].TRel? && rest[0] != TAnd)
    ensures ParseAnd([TItem(i)] + rest, false, m) == Some((Atom(i), rest))
    ensures rest == [] || rest[0] != TOr ==> ParseExpr([TItem(i)] + rest, false, m) == Some((Atom(i), rest))
  {
    ItemFactor(i, rest, m);
  }

  lemma ItemPair(a: Item, b: Item, rest: seq<Token>, m: Id)
    requires rest == [] || (!rest[0].TRel? && rest[0] != TAnd)
    ensures ParseAnd([TItem(a), TAnd, TItem(b)] + rest, false, m) == Some((And(Atom(a), Atom(b)), rest))
  {
    assert [TItem(a), TAnd, TItem(b)] + rest == [TItem(a)] + ([TAnd, TItem(b)] + rest);
    assert ([TAnd, TItem(b)] + rest)[1..] == [TItem(b)] + rest;
    ItemFactor(a, [TAnd, TItem(b)] + rest, m);
    ItemAlone(b, rest, m);
  }

  lemma ItemChoice(a: Item, b: Item, rest: seq<Token>, m: Id)
    requires rest == [] || (!rest[0].TRel? && rest[0] != TAnd && rest[0] != TOr)
    ensures ParseExpr([TItem(a), TOr, TItem(b)] + rest, false, m) == Some((Or(Atom(a), Atom(b)), rest))
  {
    hide ParseAnd;
    assert [TItem(a), TOr, TItem(b)] + rest == [TItem(a)] + ([TOr, TItem(b)] + rest);
    assert ([TOr, TItem(b)] + rest)[1..] == [TItem(b)] + rest;
    ItemAlone(a, [TOr, TItem(b)] + rest, m);
    ItemAlone(b, rest, m);
  }

  /** && binds closer than ||, ! closer than && but not than a relation, and parentheses closest. */
  lemma Precedence(a: Item, b: Item, c: Item, op: Relation, m: Id)
    ensures ParseExpr([TItem(a), TOr, TItem(b), TAnd, TItem(c)], false, m) == Some((Or(Atom(a), And(Atom(b), Atom(c))), []))
    ensures ParseExpr([TItem(a), TAnd, TItem(b), TOr, TItem(c)], false, m) == Some((Or(And(Atom(a), Atom(b)), Atom(c)), []))
    ensures ParseExpr([TNot, TItem(a), TAnd, TItem(b)], false, m) == Some((And(Not(Atom(a)), Atom(b)), []))
    ensures ParseExpr([TNot, TItem(a), TRel(op), TItem(b)], false, m) == Some((Not(Rel(op, a, b)), []))
    ensures ParseExpr([TOpen, TItem(a), TOr, TItem(b), TClose, TAnd, TItem(c)], false, m)
              == Some((And(Or(Atom(a), Atom(b)), Atom(c)), []))
  {
    OrThenAnd(a, b, c, m);
    AndThenOr(a, b, c, m);
    NotBinds(a, b, op, m);
    ParensBind(a, b, c, m);
  }

  /** Without its operands an operator is an error, and so is a parenthesis that is not closed, or nothing at all. */
  lemma Incomplete(a: Item, op: Relation, tm: bool, m: Id)
    ensures ParseExpr([], tm, m) == None && ParseExpr([TNot], tm, m) == None && ParseExpr([TOpen, TItem(a)], tm, m) == None
    ensures ParseExpr([TItem(a), TRel(op)], tm, m) == None
    ensures ParseExpr([TItem(a), TAnd], tm, m) == None && ParseExpr([TItem(a), TOr], tm, m) == None
  {
    assert [TNot][1..] == [] && [TOpen, TItem(a)][1..] == [TItem(a)] && [TItem(a)][1..] == [];
    assert [TItem(a), TAnd][1..] == [TAnd] && [TAnd][1..] == [] && [TItem(a), TOr][1..] == [TOr] && [TOr][1..] == [];
    var e := PlainItem(a, tm, m);
    assert ParseFactor([], tm, m) == None && ParseFactor([TNot], tm, m) == None;
    assert ParseFactor([TItem(a)], tm, m) == Some((e, [])) && ParseFactor([TItem(a), TRel(op)], tm, m) == None;
    assert ParseFactor([TItem(a), TAnd], tm, m) == Some((e, [TAnd])) && ParseFactor([TItem(a), TOr], tm, m) == Some((e, [TOr]));
    assert ParseAnd([], tm, m) == None && ParseAnd([TItem(a)], tm, m) == Some((e, []));
    assert ParseAnd([TItem(a), TOr], tm, m) == Some((e, [TOr]));
    assert ParseExpr([TItem(a)], tm, m) == Some((e, [])) && ParseExpr([], tm, m) == None;
    assert ParseFactor([TOpen, TItem(a)], tm, m) == None;
  }

  lemma OrThenAnd(a: Item, b: Item, c: Item, m: Id)
    ensures ParseExpr([TItem(a), TOr, TItem(b), TAnd, TItem(c)], false, m) == Some((Or(Atom(a), And(Atom(b), Atom(c))), []))
  {
    var rest := [TItem(b), TAnd, TItem(c)];
    ItemAlone(a, [TOr] + rest, m);
    assert [TItem(a), TOr, TItem(b), TAnd, TItem(c)] == [TItem(a)] + ([TOr] + rest);
    assert ([TOr] + rest)[1..] == rest && rest + [] == rest;
    ItemPair(b, c, [], m);
  }

  lemma AndThenOr(a: Item, b: Item, c: Item, m: Id)
    ensures ParseExpr([TItem(a), TAnd, TItem(b), TOr, TItem(c)], false, m) == Some((Or(And(Atom(a), Atom(b)), Atom(c)), []))
  {
    ItemPair(a, b, [TOr, TItem(c)], m);
    assert [TItem(a), TAnd, TItem(b), TOr, TItem(c)] == [TItem(a), TAnd, TItem(b)] + [TOr, TItem(c)];
    assert [TOr, TItem(c)][1..] == [TItem(c)] + [];
    ItemAlone(c, [], m);
  }

  lemma NotBinds(a: Item, b: Item, op: Relation, m: Id)
    ensures ParseExpr([TNot, TItem(a), TAnd, TItem(b)], false, m) == Some((And(Not(Atom(a)), Atom(b)), []))
    ensures ParseExpr([TNot, TItem(a), TRel(op), TItem(b)], false, m) == Some((Not(Rel(op, a, b)), []))
  {
    var ts, us := [TNot, TItem(a), TAnd, TItem(b)], [TNot, TItem(a), TRel(op), TItem(b)];
    assert ts[1..] == [TItem(a)] + [TAnd, TItem(b)];
    ItemFactor(a, [TAnd, TItem(b)], m);
    assert ParseFactor(ts, false, m) == Some((Not(Atom(a)), [TAnd, TItem(b)]));
    assert [TAnd, TItem(b)][1..] == [TItem(b)] + [];
    ItemAlone(b, [], m);
    assert ParseAnd(ts, false, m) == Some((And(Not(Atom(a)), Atom(b)), []));
    assert us[1..] == [TItem(a), TRel(op), TItem(b)] && us[1..][3..] == [];
    assert ParseFactor(us[1..], false, m) == Some((Rel(op, a, b), []));
    assert ParseFactor(us, false, m) == Some((Not(Rel(op, a, b)), []));
    assert ParseAnd(us, false, m) == Some((Not(Rel(op, a, b)), []));
  }

  lemma ParensBind(a: Item, b: Item, c: Item, m: Id)
    ensures ParseExpr([TOpen, TItem(a), TOr, TItem(b), TClose, TAnd, TItem(c)], false, m)
              == Some((And(Or(Atom(a), Atom(b)), Atom(c)), []))
  {
    var ts := [TOpen, TItem(a), TOr, TItem(b), TClose, TAnd, TItem(c)];
    assert ts[1..] == [TItem(a), TOr, TItem(b)] + [TClose, TAnd, TItem(c)];
    ItemChoice(a, b, [TClose, TAnd, TItem(c)], m);
    assert [TClose, TAnd, TItem(c)][1..] == [TAnd, TItem(c)] && [TAnd, TItem(c)][1..] == [TItem(c)] + [];
    assert ParseFactor(ts, false, m) == Some((Or(Atom(a), Atom(b)), [TAnd, TItem(c)]));
    ItemAlone(c, [], m);
    assert ParseAnd(ts, false, m) == Some((And(Or(Atom(a), Atom(b)), Atom(c)), []));
  }

  /** No chain is grouped to the left anywhere. */
  predicate RightNested(e: Expr) {
    match e
    case Atom(i) => true
    case And(l, r) => !l.And? && RightNested(l) && RightNested(r)
    case Or(l, r) => !l.Or? && RightNested(l) && RightNested(r)
    case Not(a) => RightNested(a)
    case Rel(op, a, b) => true
  }

  lemma {:induction false} ChainNested(l: Expr, x: Expr)
    requires RightNested(x)
    ensures RightNested(AndChain(l, x)) && AndChain(l, x).And? && RightNested(OrChain(l, x)) && OrChain(l, x).Or?
    decreases l, 1
  {
    if l.And? {
      ChainNested(l.right, x);
      ChainNested(l.left, AndChain(l.right, x));
    }
    if l.Or? {
      ChainNested(l.right, x);
      ChainNested(l.left, OrChain(l.right, x));
    }
    NestedAfter(l);
  }

  lemma {:induction false} NestedAfter(e: Expr)
    ensures RightNested(RightNest(e)) && RightNest(e).And? == e.And? && RightNest(e).Or? == e.Or?
    decreases e, 0
  {
    match e
    case Atom(i) =>
    case And(l, r) => NestedAfter(r); ChainNested(l, RightNest(r));
    case Or(l, r) => NestedAfter(r); ChainNested(l, RightNest(r));
    case Not(a) => NestedAfter(a);
    case Rel(op, a, b) =>
  }

  lemma {:induction false} NestedUnchanged(e: Expr)
    requires RightNested(e)
    ensures RightNest(e) == e
  {
    match e
    case Atom(i) =>
    case And(l, r) => NestedUnchanged(l); NestedUnchanged(r);
    case Or(l, r) => NestedUnchanged(l); NestedUnchanged(r);
    case Not(a) => NestedUnchanged(a);
    case Rel(op, a, b) =>
  }

  lemma {:induction false} NoRewrite(e: Expr, m: Id)
    ensures Rewrite(e, false, m) == e
  {
    match e
    case Atom(i) =>
    case And(l, r) => NoRewrite(l, m); NoRewrite(r, m);
    case Or(l, r) => NoRewrite(l, m); NoRewrite(r, m);
    case Not(a) => NoRewrite(a, m);
    case Rel(op, a, b) =>
  }

  /** Round trip: printing and reparsing gives an expression of the same value under every assignment,
      and the identical one exactly when its AND and OR chains are grouped to the right. */
  lemma RoundTrip(e: Expr, m: Id)
    ensures var r := ParseExpr(Print(e), false, m);
      && r.Some? && r.value.1 == []
      && (forall env :: ExprMeaning(r.value.0, env) == ExprMeaning(e, env))
      && (r.value.0 == e <==> RightNested(e))
  {
    assert Print(e) + [] == Print(e);
    ParsePrinted(e, [], false, m);
    NoRewrite(RightNest(e), m);
    forall env
      ensures ExprMeaning(RightNest(e), env) == ExprMeaning(e, env)
    {
      RightNestMeaning(e, env);
    }
    NestedAfter(e);
    if RightNested(e) {
      NestedUnchanged(e);
    }
  }

  lemma {:induction false} ReprintAndChain(l: Expr, x: Expr)
    ensures Print(AndChain(l, x)) == PrintUnderAnd(l) + [TAnd] + PrintUnderAnd(x)
    decreases l, 1
  {
    if l.And? {
      ReprintAndChain(l.right, x);
      ReprintAndChain(l.left, AndChain(l.right, x));
      ChainKind(l.right, x);
    } else {
      NestedAfter(l);
      Reprint(l);
    }
  }

  lemma {:induction false} ReprintOrChain(l: Expr, x: Expr)
    ensures Print(OrChain(l, x)) == PrintUnderOr(l) + [TOr] + PrintUnderOr(x)
    decreases l, 1
  {
    if l.Or? {
      ReprintOrChain(l.right, x);
      ReprintOrChain(l.left, OrChain(l.right, x));
      ChainKind(l.right, x);
    } else {
      NestedAfter(l);
      Reprint(l);
    }
  }

  lemma {:induction false} ChainKind(l: Expr, x: Expr)
    ensures AndChain(l, x).And? && OrChain(l, x).Or?
    decreases l
  {
    if l.And? {
      ChainKind(l.left, AndChain(l.right, x));
    }
    if l.Or? {
      ChainKind(l.left, OrChain(l.right, x));
    }
  }

  /** Printing again what was reparsed gives the same tokens. */
  lemma {:induction false} Reprint(e: Expr)
    ensures Print(RightNest(e)) == Print(e)
    decreases e, 0
  {
    match e
    case Atom(i) =>
    case And(l, r) => NestedAfter(r); Reprint(r); ReprintAndChain(l, RightNest(r));
    case Or(l, r) => NestedAfter(r); Reprint(r); ReprintOrChain(l, RightNest(r));
    case Not(a) => NestedAfter(a); Reprint(a); NotAtom(a);
    case Rel(op, a, b) =>
  }

  lemma NotAtom(a: Expr)
    ensures RightNest(a).Atom? == a.Atom? && (a.Atom? ==> RightNest(a) == a)
  {
    NestedAfter(a);
  }

  /** Rewriting m to m && MODULES changes no value unless modules are off. */
  lemma {:induction false} RewriteMeaning(e: Expr, m: Id, env: map<Id, Tri>)
    requires ItemValue(Sym(m), env) != 0
    ensures ExprMeaning(Rewrite(e, true, m), env) == ExprMeaning(e, env)
  {
    match e
    case Atom(i) =>
    case And(l, r) => RewriteMeaning(l, m, env); RewriteMeaning(r, m, env);
    case Or(l, r) => RewriteMeaning(l, m, env); RewriteMeaning(r, m, env);
    case Not(a) => RewriteMeaning(a, m, env);
    case Rel(op, a, b) =>
  }
}

/** The parser itself, advancing over a token list. */
module KconfigParser {
  import opened Kernels
  import opened KconfigModel
  import opened KconfigSyntax

  class Parser {
    const tokens: seq<Token>           // _tokens, without the None at its end
    const modules: Id
    var next: nat                      // _tokens_i + 1

    constructor (tokens: seq<Token>, modules: Id)
      ensures this.tokens == tokens && this.modules == modules && next == 0
    {
      this.tokens, this.modules, next := tokens, modules, 0;
    }

    // What a parsing method leaves: None where the source raises an error.
    ghost predicate Agrees(p: Parsed, r: Option<Expr>)
      reads this
    {
      if p == None then r == None
      else r == Some(p.value.0) && next <= |tokens| && tokens[next..] == p.value.1
    }

    // _check_token
    method CheckToken(t: Token) returns (b: bool)
      requires next <= |tokens|
      modifies this`next
      ensures b == (old(next) < |tokens| && tokens[old(next)] == t)
      ensures next == if b then old(next) + 1 else old(next)
    {
      if next < |tokens| && tokens[next] == t {
        next := next + 1;
        return true;
      }
      return false;
    }

    // _parse_expr
    method Expression(transform: bool) returns (r: Option<Expr>)
      requires next <= |tokens|
      modifies this`next
      ensures Agrees(ParseExpr(tokens[old(next)..], transform, modules), r)
      decreases |tokens| - next, 2
    {
      ghost var ts := tokens[next..];
      var left := Conjunction(transform);
      if left == None {
        return None;
      }
      ghost var p := ParseAnd(ts, transform, modules);
      var more := CheckToken(TOr);
      if !more {
        return left;
      }
      assert p.value.1[1..] == tokens[next..];
      var right := Expression(transform);
      if right == None {
        return None;
      }
      return Some(Or(left.value, right.value));
    }

    // _parse_and_expr
    method Conjunction(transform: bool) returns (r: Option<Expr>)
      requires next <= |tokens|
      modifies this`next
      ensures Agrees(ParseAnd(tokens[old(next)..], transform, modules), r)
      decreases |tokens| - next, 1
    {
      ghost var ts := tokens[next..];
      var left := Factor(transform);
      if left == None {
        return None;
      }
      ghost var p := ParseFactor(ts, transform, modules);
      var more := CheckToken(TAnd);
      if !more {
        return left;
      }
      assert p.value.1[1..] == tokens[next..];
      var right := Conjunction(transform);
      if right == None {
        return None;
      }
      return Some(And(left.value, right.value));
    }

    // _parse_factor
    method Factor(transform: bool) returns (r: Option<Expr>)
      requires next <= |tokens|
      modifies this`next
      ensures Agrees(ParseFactor(tokens[old(next)..], transform, modules), r)
      decreases |tokens| - next, 0
    {
      ghost var ts := tokens[next..];
      if next == |tokens| {
        return None;
      }
      var token := tokens[next];
      next := next + 1;
      assert ts[1..] == tokens[next..];
      match token
      case TItem(i) =>
        if next < |tokens| && tokens[next].TRel? {
          next := next + 2;
          if next <= |tokens| && tokens[next - 1].TItem? {
            assert ts[3..] == tokens[next..];
            return Some(Rel(tokens[next - 2].op, i, tokens[next - 1].item));
          }
          return None;
        }
        return Some(PlainItem(i, transform, modules));
      case TNot =>
        var a := Factor(transform);
        if a == None {
          return None;
        }
        return Some(Not(a.value));
      case TOpen =>
        var e := Expression(transform);
        if e == None {
          return None;
        }
        ghost var p := ParseExpr(ts[1..], transform, modules);
        var closed := CheckToken(TClose);
        if !closed {
          return None;
        }
        assert p.value.1[1..] == tokens[next..];
        return e;
      case _ => return None;
    }
  }
}
