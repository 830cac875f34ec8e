/** Kconfig symbols and expressions, and what they are worth without any caching. */
module KconfigModel {
  import opened Kernels

  type Id = nat

  // n, m, y
  type Tri = v: nat | v <= 2

  datatype SymType = Bool | Tristate | Other

  datatype Relation = Equal | Unequal | Less | LessEqual | Greater | GreaterEqual

  datatype Item = Sym(id: Id) | Const(value: Tri)

  datatype Expr = Atom(item: Item) | And(left: Expr, right: Expr) | Or(left: Expr, right: Expr) | Not(arg: Expr)
                | Rel(op: Relation, a: Item, b: Item)

  /** A symbol outside choices: the conditions of its prompts, its defaults with their conditions, and its dependencies. */
  datatype Symbol = Symbol(origType: SymType, prompts: seq<Expr>, defaults: seq<(Expr, Expr)>,
                           revDep: Expr, weakRevDep: Expr, directDep: Expr)

  datatype Config = Config(syms: map<Id, Symbol>, modules: Id)

  function Min(a: Tri, b: Tri): Tri {
    if a < b then a else b
  }

  function Max(a: Tri, b: Tri): Tri {
    if a < b then b else a
  }

  predicate Holds(op: Relation, comp: int) {
    match op
    case Equal => comp == 0
    case Unequal => comp != 0
    case Less => comp < 0
    case LessEqual => comp <= 0
    case Greater => comp > 0
    case GreaterEqual => comp >= 0
  }

  // --- the symbols an expression mentions ---

  function ItemSyms(i: Item): set<Id> {
    if i.Sym? then {i.id} else {}
  }

  function Syms(e: Expr): set<Id> {
    match e
    case Atom(i) => ItemSyms(i)
    case And(l, r) => Syms(l) + Syms(r)
    case Or(l, r) => Syms(l) + Syms(r)
    case Not(a) => Syms(a)
    case Rel(op, a, b) => ItemSyms(a) + ItemSyms(b)
  }

  function AllSyms(es: seq<Expr>): set<Id> {
    if es == [] then {} else Syms(es[0]) + AllSyms(es[1..])
  }

  function DefaultSyms(ds: seq<(Expr, Expr)>): set<Id> {
    if ds == [] then {} else Syms(ds[0].0) + Syms(ds[0].1) + DefaultSyms(ds[1..])
  }

  // Everything _build_dep makes the symbol depend on.
  function Deps(y: Symbol): set<Id> {
    AllSyms(y.prompts) + DefaultSyms(y.defaults) + Syms(y.revDep) + Syms(y.weakRevDep) + Syms(y.directDep)
  }

  /** No symbol depends on itself; a tristate symbol counts as depending on MODULES, which gives it its type. */
  ghost predicate WellFormed(c: Config, rank: map<Id, nat>) {
    && c.modules in c.syms && c.syms.Keys <= rank.Keys
    && forall s | s in c.syms ::
         && (forall d | d in Deps(c.syms[s]) :: d in c.syms && rank[d] < rank[s])
         && (c.syms[s].origType == Tristate ==> rank[c.modules] < rank[s])
  }

  // --- meaning: every part evaluated, nothing remembered ---

  function ItemValue(i: Item, env: map<Id, Tri>): Tri {
    match i
    case Sym(d) => if d in env then env[d] else 0
    case Const(v) => v
  }

  function ExprMeaning(e: Expr, env: map<Id, Tri>): Tri {
    match e
    case Atom(i) => ItemValue(i, env)
    case And(l, r) => Min(ExprMeaning(l, env), ExprMeaning(r, env))
    case Or(l, r) => Max(ExprMeaning(l, env), ExprMeaning(r, env))
    case Not(a) => 2 - ExprMeaning(a, env)
    case Rel(op, a, b) => if Holds(op, ItemValue(a, env) - ItemValue(b, env)) then 2 else 0
  }

  function MaxMeaning(es: seq<Expr>, env: map<Id, Tri>): Tri {
    if es == [] then 0 else Max(ExprMeaning(es[0], env), MaxMeaning(es[1..], env))
  }

  predicate IsTristate(c: Config, y: Symbol, env: map<Id, Tri>) {
    y.origType == Tristate && ItemValue(Sym(c.modules), env) != 0
  }

  function VisMeaning(c: Config, y: Symbol, env: map<Id, Tri>): Tri {
    var vis := MaxMeaning(y.prompts, env);
    if vis == 1 && !IsTristate(c, y, env) then 2 else vis
  }

  function DefaultMeaning(ds: seq<(Expr, Expr)>, env: map<Id, Tri>): Tri {
    if ds == [] then 0
    else
      var cond := ExprMeaning(ds[0].1, env);
      if cond != 0 then Min(ExprMeaning(ds[0].0, env), cond) else DefaultMeaning(ds[1..], env)
  }

  function BaseMeaning(y: Symbol, user: Option<Tri>, vis: Tri, env: map<Id, Tri>): Tri {
    if vis != 0 && user.Some? then Min(user.value, vis)
    else Max(DefaultMeaning(y.defaults, env), if ExprMeaning(y.directDep, env) != 0 then ExprMeaning(y.weakRevDep, env) else 0)
  }

  function TriMeaning(c: Config, y: Symbol, user: Option<Tri>, env: map<Id, Tri>): Tri {
    if y.origType == Other then 0
    else
      var vis, weak := VisMeaning(c, y, env), ExprMeaning(y.weakRevDep, env);
      var val := Max(BaseMeaning(y, user, vis, env), ExprMeaning(y.revDep, env));
      if val == 1 && (!IsTristate(c, y, env) || weak == 2) then 2 else val
  }

  function UserOf(user: map<Id, Tri>, s: Id): Option<Tri> {
    if s in user then Some(user[s]) else None
  }

  /** A valuation in which every symbol has the value its properties give it. */
  ghost predicate Solution(c: Config, user: map<Id, Tri>, env: map<Id, Tri>) {
    env.Keys == c.syms.Keys && forall s | s in c.syms :: env[s] == TriMeaning(c, c.syms[s], UserOf(user, s), env)
  }

  // The values of the symbols of rank below n, from the bottom up.
  ghost function Values(c: Config, rank: map<Id, nat>, user: map<Id, Tri>, n: nat): (r: map<Id, Tri>)
    requires c.syms.Keys <= rank.Keys
    ensures forall s :: s in r <==> s in c.syms && rank[s] < n
  {
    if n == 0 then map[]
    else
      var below := Values(c, rank, user, n - 1);
      map s | s in c.syms && rank[s] < n ::
        if rank[s] < n - 1 then below[s] else TriMeaning(c, c.syms[s], UserOf(user, s), below)
  }

  lemma {:induction false} ExprMeaningAgrees(e: Expr, env: map<Id, Tri>, env': map<Id, Tri>)
    requires forall d | d in Syms(e) :: ItemValue(Sym(d), env) == ItemValue(Sym(d), env')
    ensures ExprMeaning(e, env) == ExprMeaning(e, env')
  {
    match e
    case Atom(i) =>
    case And(l, r) => ExprMeaningAgrees(l, env, env'); ExprMeaningAgrees(r, env, env');
    case Or(l, r) => ExprMeaningAgrees(l, env, env'); ExprMeaningAgrees(r, env, env');
    case Not(a) => ExprMeaningAgrees(a, env, env');
    case Rel(op, a, b) =>
  }

  lemma {:induction false} MaxMeaningAgrees(es: seq<Expr>, env: map<Id, Tri>, env': map<Id, Tri>)
    requires forall d | d in AllSyms(es) :: ItemValue(Sym(d), env) == ItemValue(Sym(d), env')
    ensures MaxMeaning(es, env) == MaxMeaning(es, env')
    decreases |es|
  {
    if es != [] {
      ExprMeaningAgrees(es[0], env, env');
      MaxMeaningAgrees(es[1..], env, env');
    }
  }

  lemma {:induction false} DefaultMeaningAgrees(ds: seq<(Expr, Expr)>, env: map<Id, Tri>, env': map<Id, Tri>)
    requires forall d | d in DefaultSyms(ds) :: ItemValue(Sym(d), env) == ItemValue(Sym(d), env')
    ensures DefaultMeaning(ds, env) == DefaultMeaning(ds, env')
    decreases |ds|
  {
    if ds != [] {
      ExprMeaningAgrees(ds[0].0, env, env');
      ExprMeaningAgrees(ds[0].1, env, env');
      DefaultMeaningAgrees(ds[1..], env, env');
    }
  }

  // A symbol's value depends on the values of its dependencies and of MODULES alone.
  lemma TriMeaningAgrees(c: Config, y: Symbol, user: Option<Tri>, env: map<Id, Tri>, env': map<Id, Tri>)
    requires forall d | d in Deps(y) :: ItemValue(Sym(d), env) == ItemValue(Sym(d), env')
    requires y.origType == Tristate ==> ItemValue(Sym(c.modules), env) == ItemValue(Sym(c.modules), env')
    ensures TriMeaning(c, y, user, env) == TriMeaning(c, y, user, env')
  {
    MaxMeaningAgrees(y.prompts, env, env');
    DefaultMeaningAgrees(y.defaults, env, env');
    ExprMeaningAgrees(y.revDep, env, env');
    ExprMeaningAgrees(y.weakRevDep, env, env');
    ExprMeaningAgrees(y.directDep, env, env');
  }

  lemma {:induction false} ValuesStable(c: Config, rank: map<Id, nat>, user: map<Id, Tri>, n: nat, s: Id)
    requires c.syms.Keys <= rank.Keys && s in c.syms && rank[s] < n
    ensures Values(c, rank, user, n)[s] == Values(c, rank, user, rank[s] + 1)[s]
  {
    hide TriMeaning;
    if rank[s] < n - 1 {
      ValuesStable(c, rank, user, n - 1, s);
    }
  }

  /** An acyclic configuration has a valuation. */
  lemma SolutionExists(c: Config, rank: map<Id, nat>, user: map<Id, Tri>, n: nat) returns (env: map<Id, Tri>)
    requires WellFormed(c, rank) && forall s | s in c.syms :: rank[s] < n
    ensures Solution(c, user, env)
  {
    hide TriMeaning, Deps;
    env := Values(c, rank, user, n);
    forall s | s in c.syms
      ensures env[s] == TriMeaning(c, c.syms[s], UserOf(user, s), env)
    {
      var below := Values(c, rank, user, rank[s]);
      ValuesStable(c, rank, user, n, s);
      forall d | d in c.syms && rank[d] < rank[s]
        ensures ItemValue(Sym(d), below) == ItemValue(Sym(d), env)
      {
        ValuesStable(c, rank, user, n, d);
        ValuesStable(c, rank, user, rank[s], d);
      }
      TriMeaningAgrees(c, c.syms[s], UserOf(user, s), below, env);
    }
  }

  /** It has no other. */
  lemma {:induction false} SolutionUnique(c: Config, rank: map<Id, nat>, user: map<Id, Tri>, env: map<Id, Tri>,
                                          env': map<Id, Tri>, s: Id)
    requires WellFormed(c, rank) && Solution(c, user, env) && Solution(c, user, env') && s in c.syms
    ensures env[s] == env'[s]
    decreases rank[s]
  {
    hide TriMeaning, Deps;
    forall d | d in c.syms && rank[d] < rank[s]
      ensures ItemValue(Sym(d), env) == ItemValue(Sym(d), env')
    {
      SolutionUnique(c, rank, user, env, env', d);
    }
    TriMeaningAgrees(c, c.syms[s], UserOf(user, s), env, env');
  }

  // --- the laws of the operators ---

  /** Comparisons are y or n, and go by the order n < m < y of what the two sides are worth: just one of =, < and > is y, != is the
      opposite of =, <= is < or =, and > and >= are < and <= with the sides swapped. */
  lemma RelationLaws(a: Item, b: Item, env: map<Id, Tri>)
    ensures forall op: Relation :: ExprMeaning(Rel(op, a, b), env) in {0, 2}
    ensures ExprMeaning(Rel(Equal, a, b), env) == 2 <==> ExprMeaning(Atom(a), env) == ExprMeaning(Atom(b), env)
    ensures ExprMeaning(Rel(Less, a, b), env) == 2 <==> ExprMeaning(Atom(a), env) < ExprMeaning(Atom(b), env)
    ensures ExprMeaning(Rel(Equal, a, b), env) + ExprMeaning(Rel(Less, a, b), env) + ExprMeaning(Rel(Greater, a, b), env) == 2
    ensures ExprMeaning(Rel(Unequal, a, b), env) == ExprMeaning(Not(Rel(Equal, a, b)), env)
    ensures ExprMeaning(Rel(LessEqual, a, b), env) == ExprMeaning(Or(Rel(Less, a, b), Rel(Equal, a, b)), env)
    ensures ExprMeaning(Rel(Greater, a, b), env) == ExprMeaning(Rel(Less, b, a), env)
    ensures ExprMeaning(Rel(GreaterEqual, a, b), env) == ExprMeaning(Rel(LessEqual, b, a), env)
    ensures ExprMeaning(Rel(Equal, a, a), env) == 2
  {
  }

  /** n < m < y, a symbol is worth what it is given, and one that is not there is worth n. */
  lemma ItemLaws(d: Id, v: Tri, env: map<Id, Tri>)
    ensures ExprMeaning(Rel(Less, Const(0), Const(1)), env) == 2 == ExprMeaning(Rel(Less, Const(1), Const(2)), env)
    ensures ExprMeaning(Rel(Equal, Sym(d), Const(v)), env) == 2 <==> if d in env then env[d] == v else v == 0
  {
  }

  /** && is the greatest lower bound and || the least upper bound; ! reverses the order and is its own inverse. */
  lemma LogicLaws(l: Expr, r: Expr, x: Expr, env: map<Id, Tri>)
    ensures ExprMeaning(x, env) <= ExprMeaning(And(l, r), env) <==>
            ExprMeaning(x, env) <= ExprMeaning(l, env) && ExprMeaning(x, env) <= ExprMeaning(r, env)
    ensures ExprMeaning(Or(l, r), env) <= ExprMeaning(x, env) <==>
            ExprMeaning(l, env) <= ExprMeaning(x, env) && ExprMeaning(r, env) <= ExprMeaning(x, env)
    ensures ExprMeaning(l, env) <= ExprMeaning(r, env) <==> ExprMeaning(Not(r), env) <= ExprMeaning(Not(l), env)
    ensures ExprMeaning(Not(Not(l)), env) == ExprMeaning(l, env)
  {
    hide ExprMeaning;
    LogicSteps(l, r, env);
    NotStep(l, env);
    NotStep(r, env);
    NotStep(Not(l), env);
  }

  lemma LogicSteps(l: Expr, r: Expr, env: map<Id, Tri>)
    ensures ExprMeaning(And(l, r), env) == Min(ExprMeaning(l, env), ExprMeaning(r, env))
    ensures ExprMeaning(Or(l, r), env) == Max(ExprMeaning(l, env), ExprMeaning(r, env))
  {
  }

  lemma NotStep(a: Expr, env: map<Id, Tri>)
    ensures ExprMeaning(Not(a), env) == 2 - ExprMeaning(a, env)
  {
  }

  // --- the laws of symbols ---

  // A symbol can be m: it is tristate, and MODULES is not n.
  ghost predicate CanBeM(c: Config, y: Symbol, env: map<Id, Tri>) {
    y.origType == Tristate && ExprMeaning(Atom(Sym(c.modules)), env) != 0
  }

  // A value that is not below any prompt's condition, and m only if it can be.
  ghost predicate CoversPrompts(c: Config, y: Symbol, env: map<Id, Tri>, v: Tri) {
    && (forall i | 0 <= i < |y.prompts| :: ExprMeaning(y.prompts[i], env) <= v)
    && (v == 1 ==> CanBeM(c, y, env))
  }

  lemma {:induction false} MaxIsLeast(es: seq<Expr>, env: map<Id, Tri>, v: Tri)
    ensures MaxMeaning(es, env) <= v <==> forall i | 0 <= i < |es| :: ExprMeaning(es[i], env) <= v
    decreases |es|
  {
    if es != [] {
      MaxIsLeast(es[1..], env, v);
      assert forall i | 1 <= i < |es| :: es[i] == es[1..][i - 1];
      assert forall i | 0 <= i < |es| - 1 :: es[1..][i] == es[i + 1];
    }
  }

  /** A symbol's visibility is the lowest value that no condition of its prompts exceeds and that it can have. */
  lemma VisibilityIsLeast(c: Config, y: Symbol, env: map<Id, Tri>, v: Tri)
    ensures CoversPrompts(c, y, env, VisMeaning(c, y, env))
    ensures CoversPrompts(c, y, env, v) ==> VisMeaning(c, y, env) <= v
  {
    MaxIsLeast(y.prompts, env, VisMeaning(c, y, env));
    MaxIsLeast(y.prompts, env, v);
  }

  // Default i is the first one whose condition is not n.
  ghost predicate FirstDefault(ds: seq<(Expr, Expr)>, env: map<Id, Tri>, i: nat) {
    && i < |ds| && ExprMeaning(ds[i].1, env) != 0
    && forall j | 0 <= j < i :: ExprMeaning(ds[j].1, env) == 0
  }

  lemma {:induction false} DefaultIsFirst(ds: seq<(Expr, Expr)>, env: map<Id, Tri>, v: Tri)
    ensures DefaultMeaning(ds, env) <= v <==>
            forall i: nat | FirstDefault(ds, env, i) :: ExprMeaning(ds[i].0, env) <= v || ExprMeaning(ds[i].1, env) <= v
    decreases |ds|
  {
    if ds != [] {
      DefaultIsFirst(ds[1..], env, v);
      if ExprMeaning(ds[0].1, env) != 0 {
        assert FirstDefault(ds, env, 0);
      } else {
        forall i: nat
          ensures FirstDefault(ds[1..], env, i) <==> FirstDefault(ds, env, i + 1)
        {
          FirstOfRest(ds, env, i);
        }
        assert forall i: nat | FirstDefault(ds, env, i) :: i > 0 && FirstDefault(ds[1..], env, i - 1);
        assert forall i: nat | FirstDefault(ds[1..], env, i) :: FirstDefault(ds, env, i + 1) && ds[1..][i] == ds[i + 1];
      }
    }
  }

  lemma FirstOfRest(ds: seq<(Expr, Expr)>, env: map<Id, Tri>, i: nat)
    requires ds != [] && ExprMeaning(ds[0].1, env) == 0
    ensures FirstDefault(ds[1..], env, i) <==> FirstDefault(ds, env, i + 1)
  {
    assert forall j | 0 <= j < |ds| - 1 :: ds[1..][j] == ds[j + 1];
    assert forall j | 1 <= j < |ds| :: ds[j] == ds[1..][j - 1];
  }

  // What a symbol starts from is not above v: the value the user has set, limited by the visibility, if the symbol is visible;
  // otherwise its first default, limited by its condition, and what implies it, if its dependencies are met.
  ghost predicate CoversStart(c: Config, y: Symbol, user: Option<Tri>, env: map<Id, Tri>, v: Tri) {
    if VisMeaning(c, y, env) != 0 && user.Some? then user.value <= v || VisMeaning(c, y, env) <= v
    else
      && (forall i: nat | FirstDefault(y.defaults, env, i) ::
            ExprMeaning(y.defaults[i].0, env) <= v || ExprMeaning(y.defaults[i].1, env) <= v)
      && (ExprMeaning(y.directDep, env) != 0 ==> ExprMeaning(y.weakRevDep, env) <= v)
  }

  // A value that the symbol may have: not below that, nor below what selects it, and m only if it can be m and is not implied y.
  ghost predicate MayBe(c: Config, y: Symbol, user: Option<Tri>, env: map<Id, Tri>, v: Tri) {
    && CoversStart(c, y, user, env, v) && ExprMeaning(y.revDep, env) <= v
    && (v == 1 ==> CanBeM(c, y, env) && ExprMeaning(y.weakRevDep, env) != 2)
  }

  lemma ValueIsLeast(c: Config, y: Symbol, user: Option<Tri>, env: map<Id, Tri>, v: Tri)
    requires y.origType != Other
    ensures MayBe(c, y, user, env, TriMeaning(c, y, user, env))
    ensures MayBe(c, y, user, env, v) ==> TriMeaning(c, y, user, env) <= v
  {
    var t := TriMeaning(c, y, user, env);
    DefaultIsFirst(y.defaults, env, t);
    DefaultIsFirst(y.defaults, env, v);
    hide DefaultMeaning, FirstDefault, VisMeaning;
  }

  /** In a valuation every bool or tristate symbol has the lowest value it may have, and any other symbol is worth n. */
  lemma SymbolIsLeast(c: Config, user: map<Id, Tri>, env: map<Id, Tri>, s: Id, v: Tri)
    requires Solution(c, user, env) && s in c.syms
    ensures if c.syms[s].origType == Other then env[s] == 0
            else MayBe(c, c.syms[s], UserOf(user, s), env, env[s]) && (MayBe(c, c.syms[s], UserOf(user, s), env, v) ==> env[s] <= v)
  {
    if c.syms[s].origType != Other {
      ValueIsLeast(c, c.syms[s], UserOf(user, s), env, v);
    }
  }

  /** So a symbol is never below what selects it, never m when it is bool or MODULES is n; a value the user sets is taken if the
      symbol is visible and neither its visibility is below nor its selects are above it, unless it is m and m is raised to y. */
  lemma SymbolLaws(c: Config, user: map<Id, Tri>, env: map<Id, Tri>, s: Id)
    requires Solution(c, user, env) && s in c.syms && c.syms[s].origType != Other
    ensures ExprMeaning(c.syms[s].revDep, env) <= env[s]
    ensures env[s] == 1 ==> c.syms[s].origType == Tristate && c.modules in env && env[c.modules] != 0
    ensures var y := c.syms[s]; var vis := VisMeaning(c, y, env);
      s in user && 0 < vis && user[s] <= vis && ExprMeaning(y.revDep, env) <= user[s] ==>
        (env[s] == user[s] <==> user[s] == 1 ==> CanBeM(c, y, env) && ExprMeaning(y.weakRevDep, env) != 2)
    ensures var y := c.syms[s]; var vis := VisMeaning(c, y, env);
      s in user && 0 < vis && env[s] > ExprMeaning(y.revDep, env) ==>
        env[s] <= vis || (env[s] == 2 && vis == 1 && ExprMeaning(y.weakRevDep, env) == 2)
  {
    var y := c.syms[s];
    SymbolIsLeast(c, user, env, s, env[s]);
    if s in user {
      SymbolIsLeast(c, user, env, s, user[s]);
    }
    SymbolIsLeast(c, user, env, s, VisMeaning(c, y, env));
    SymbolIsLeast(c, user, env, s, ExprMeaning(y.revDep, env));
    VisibilityIsLeast(c, y, env, 2);
    hide TriMeaning, VisMeaning, FirstDefault, ExprMeaning;
  }

  /** A symbol that is neither selected nor implied, and that the user has not set or cannot set, has its first default whose
      condition is not n, limited by that condition; without one it is n. */
  lemma DefaultLaw(c: Config, user: map<Id, Tri>, env: map<Id, Tri>, s: Id)
    requires Solution(c, user, env) && s in c.syms && c.syms[s].origType != Other
    requires s !in user || VisMeaning(c, c.syms[s], env) == 0
    requires ExprMeaning(c.syms[s].revDep, env) == 0 && ExprMeaning(c.syms[s].weakRevDep, env) == 0
    ensures var y := c.syms[s];
      forall i: nat | FirstDefault(y.defaults, env, i) ::
        var d := if ExprMeaning(y.defaults[i].0, env) <= ExprMeaning(y.defaults[i].1, env) then y.defaults[i].0 else y.defaults[i].1;
        env[s] == if ExprMeaning(d, env) == 1 && !CanBeM(c, y, env) then 2 else ExprMeaning(d, env)
    ensures (forall i | 0 <= i < |c.syms[s].defaults| :: ExprMeaning(c.syms[s].defaults[i].1, env) == 0) ==> env[s] == 0
  {
    var y := c.syms[s];
    SymbolIsLeast(c, user, env, s, env[s]);
    forall i: nat | FirstDefault(y.defaults, env, i)
      ensures var d := if ExprMeaning(y.defaults[i].0, env) <= ExprMeaning(y.defaults[i].1, env) then y.defaults[i].0 else y.defaults[i].1;
              env[s] == if ExprMeaning(d, env) == 1 && !CanBeM(c, y, env) then 2 else ExprMeaning(d, env)
    {
      var d := if ExprMeaning(y.defaults[i].0, env) <= ExprMeaning(y.defaults[i].1, env) then y.defaults[i].0 else y.defaults[i].1;
      OneFirst(y.defaults, env, i);
      SymbolIsLeast(c, user, env, s, if ExprMeaning(d, env) == 1 && !CanBeM(c, y, env) then 2 else ExprMeaning(d, env));
      hide TriMeaning, VisMeaning, FirstDefault, ExprMeaning;
    }
    SymbolIsLeast(c, user, env, s, 0);
    hide TriMeaning, VisMeaning, ExprMeaning;
  }

  lemma OneFirst(ds: seq<(Expr, Expr)>, env: map<Id, Tri>, i: nat)
    requires FirstDefault(ds, env, i)
    ensures forall j: nat | FirstDefault(ds, env, j) :: j == i
  {
  }

  /** What the user sets on a symbol that is not visible changes nothing. */
  lemma InvisibleIgnoresUser(c: Config, user: map<Id, Tri>, env: map<Id, Tri>, s: Id, v: Tri)
    requires s in c.syms && VisMeaning(c, c.syms[s], env) == 0
    ensures Solution(c, user[s := v], env) <==> Solution(c, user - {s}, env)
  {
    var u, u' := user[s := v], user - {s};
    forall d | d in c.syms
      ensures TriMeaning(c, c.syms[d], UserOf(u, d), env) == TriMeaning(c, c.syms[d], UserOf(u', d), env)
    {
      if d != s {
        assert UserOf(u, d) == UserOf(u', d);
      }
    }
    hide TriMeaning;
  }
}

/** The evaluator with its caches, and their invalidation. */
module KconfigCache {
  import opened Kernels
  import opened KconfigModel

  // --- evaluation that may read cached values only, with the short cuts of expr_value ---

  function PItem(i: Item, tri: map<Id, Tri>): Option<Tri> {
    match i
    case Sym(d) => if d in tri then Some(tri[d]) else None
    case Const(v) => Some(v)
  }

  function PExpr(e: Expr, tri: map<Id, Tri>): Option<Tri> {
    match e
    case Atom(i) => PItem(i, tri)
    case And(l, r) =>
      var v1 := PExpr(l, tri);
      if v1 == None || v1 == Some(0) then v1
      else
        var v2 := PExpr(r, tri);
        if v2 == None then None else Some(Min(v1.value, v2.value))
    case Or(l, r) =>
      var v1 := PExpr(l, tri);
      if v1 == None || v1 == Some(2) then v1
      else
        var v2 := PExpr(r, tri);
        if v2 == None then None else Some(Max(v1.value, v2.value))
    case Not(a) =>
      var v := PExpr(a, tri);
      if v == None then None else Some(2 - v.value)
    case Rel(op, a, b) =>
      var v1, v2 := PItem(a, tri), PItem(b, tri);
      if v1 == None || v2 == None then None else Some(if Holds(op, v1.value - v2.value) then 2 else 0)
  }

  function PMax(es: seq<Expr>, tri: map<Id, Tri>): Option<Tri> {
    if es == [] then Some(0)
    else
      var v, rest := PExpr(es[0], tri), PMax(es[1..], tri);
      if v == None || rest == None then None else Some(Max(v.value, rest.value))
  }

  function PIsTristate(c: Config, y: Symbol, tri: map<Id, Tri>): Option<bool> {
    if y.origType != Tristate then Some(false)
    else if c.modules in tri then Some(tri[c.modules] != 0)
    else None
  }

  function PVis(c: Config, y: Symbol, tri: map<Id, Tri>): Option<Tri> {
    var vis := PMax(y.prompts, tri);
    if vis != Some(1) then vis
    else
      var t := PIsTristate(c, y, tri);
      if t == None then None else if t.value then vis else Some(2)
  }

  function PDefault(ds: seq<(Expr, Expr)>, tri: map<Id, Tri>): Option<Tri> {
    if ds == [] then Some(0)
    else
      var cond := PExpr(ds[0].1, tri);
      if cond == None then None
      else if cond.value != 0 then
        var v := PExpr(ds[0].0, tri);
        if v == None then None else Some(Min(v.value, cond.value))
      else PDefault(ds[1..], tri)
  }

  // The value before select statements are considered.
  function PBase(y: Symbol, user: Option<Tri>, vis: Tri, tri: map<Id, Tri>): Option<Tri> {
    if vis != 0 && user.Some? then Some(Min(user.value, vis))
    else
      var d, weak := PDefault(y.defaults, tri), PExpr(y.weakRevDep, tri);
      if d == None || weak == None then None
      else if weak.value == 0 then d
      else
        var dep := PExpr(y.directDep, tri);
        if dep == None then None else if dep.value != 0 then Some(Max(weak.value, d.value)) else d
  }

  function PPromote(c: Config, y: Symbol, val: Tri, tri: map<Id, Tri>): Option<Tri> {
    if val != 1 then Some(val)
    else
      var t := PIsTristate(c, y, tri);
      if t == None then None
      else if !t.value then Some(2)
      else
        var weak := PExpr(y.weakRevDep, tri);
        if weak == None then None else if weak.value == 2 then Some(2) else Some(1)
  }

  function PTri(c: Config, y: Symbol, user: Option<Tri>, vis: Tri, tri: map<Id, Tri>): Option<Tri> {
    var base, rev := PBase(y, user, vis, tri), PExpr(y.revDep, tri);
    if base == None || rev == None then None
    else PPromote(c, y, Max(rev.value, base.value), tri)
  }

  /** Every cached value follows from cached values: those that were read when it was computed. */
  ghost predicate Coherent(c: Config, user: map<Id, Tri>, tri: map<Id, Tri>, vis: map<Id, Tri>) {
    && (forall s | s in vis :: s in c.syms && PVis(c, c.syms[s], tri) == Some(vis[s]))
    && (forall s | s in tri :: s in c.syms &&
          if c.syms[s].origType == Other then tri[s] == 0
          else s in vis && PTri(c, c.syms[s], UserOf(user, s), vis[s], tri) == Some(tri[s]))
  }

  // On these symbols, whatever the first cache has the second has too.
  ghost predicate Kept(ids: set<Id>, tri: map<Id, Tri>, tri': map<Id, Tri>) {
    forall d | d in ids && d in tri :: d in tri' && tri'[d] == tri[d]
  }

  lemma {:induction false} PExprKept(e: Expr, tri: map<Id, Tri>, tri': map<Id, Tri>)
    requires Kept(Syms(e), tri, tri') && PExpr(e, tri).Some?
    ensures PExpr(e, tri') == PExpr(e, tri)
  {
    match e
    case Atom(i) =>
    case And(l, r) =>
      PExprKept(l, tri, tri');
      if PExpr(l, tri) != Some(0) {
        PExprKept(r, tri, tri');
      }
    case Or(l, r) =>
      PExprKept(l, tri, tri');
      if PExpr(l, tri) != Some(2) {
        PExprKept(r, tri, tri');
      }
    case Not(a) => PExprKept(a, tri, tri');
    case Rel(op, a, b) =>
  }

  lemma {:induction false} PMaxKept(es: seq<Expr>, tri: map<Id, Tri>, tri': map<Id, Tri>)
    requires Kept(AllSyms(es), tri, tri') && PMax(es, tri).Some?
    ensures PMax(es, tri') == PMax(es, tri)
    decreases |es|
  {
    if es != [] {
      PExprKept(es[0], tri, tri');
      PMaxKept(es[1..], tri, tri');
    }
  }

  lemma {:induction false} PDefaultKept(ds: seq<(Expr, Expr)>, tri: map<Id, Tri>, tri': map<Id, Tri>)
    requires Kept(DefaultSyms(ds), tri, tri') && PDefault(ds, tri).Some?
    ensures PDefault(ds, tri') == PDefault(ds, tri)
    decreases |ds|
  {
    if ds != [] {
      PExprKept(ds[0].1, tri, tri');
      if PExpr(ds[0].1, tri) == Some(0) {
        PDefaultKept(ds[1..], tri, tri');
      } else {
        PExprKept(ds[0].0, tri, tri');
      }
    }
  }

  lemma PVisKept(c: Config, y: Symbol, tri: map<Id, Tri>, tri': map<Id, Tri>)
    requires Kept(Deps(y), tri, tri') && Kept({c.modules}, tri, tri') && PVis(c, y, tri).Some?
    ensures PVis(c, y, tri') == PVis(c, y, tri)
  {
    PMaxKept(y.prompts, tri, tri');
  }

  lemma PBaseKept(y: Symbol, user: Option<Tri>, vis: Tri, tri: map<Id, Tri>, tri': map<Id, Tri>)
    requires Kept(Deps(y), tri, tri') && PBase(y, user, vis, tri).Some?
    ensures PBase(y, user, vis, tri') == PBase(y, user, vis, tri)
  {
    if vis == 0 || user == None {
      PDefaultKept(y.defaults, tri, tri');
      PExprKept(y.weakRevDep, tri, tri');
      if PExpr(y.weakRevDep, tri) != Some(0) {
        PExprKept(y.directDep, tri, tri');
      }
    }
  }

  lemma PPromoteKept(c: Config, y: Symbol, val: Tri, tri: map<Id, Tri>, tri': map<Id, Tri>)
    requires Kept(Deps(y), tri, tri') && Kept({c.modules}, tri, tri') && PPromote(c, y, val, tri).Some?
    ensures PPromote(c, y, val, tri') == PPromote(c, y, val, tri)
  {
    if val == 1 && PIsTristate(c, y, tri) == Some(true) {
      PExprKept(y.weakRevDep, tri, tri');
    }
  }

  lemma PTriKept(c: Config, y: Symbol, user: Option<Tri>, vis: Tri, tri: map<Id, Tri>, tri': map<Id, Tri>)
    requires Kept(Deps(y), tri, tri') && Kept({c.modules}, tri, tri') && PTri(c, y, user, vis, tri).Some?
    ensures PTri(c, y, user, vis, tri') == PTri(c, y, user, vis, tri)
  {
    hide PPromote, PBase, Deps;
    KeptRev(y, tri, tri');
    PBaseKept(y, user, vis, tri, tri');
    PExprKept(y.revDep, tri, tri');
    PPromoteKept(c, y, Max(PExpr(y.revDep, tri).value, PBase(y, user, vis, tri).value), tri, tri');
  }

  lemma KeptRev(y: Symbol, tri: map<Id, Tri>, tri': map<Id, Tri>)
    requires Kept(Deps(y), tri, tri')
    ensures Kept(Syms(y.revDep), tri, tri')
  {
  }

  // --- what is cached is what it should be ---

  lemma {:induction false} PExprIsMeaning(e: Expr, tri: map<Id, Tri>, env: map<Id, Tri>)
    requires Kept(Syms(e), tri, env) && PExpr(e, tri).Some?
    ensures PExpr(e, tri) == Some(ExprMeaning(e, env))
  {
    match e
    case Atom(i) =>
    case And(l, r) =>
      PExprIsMeaning(l, tri, env);
      if PExpr(l, tri) != Some(0) {
        PExprIsMeaning(r, tri, env);
      }
    case Or(l, r) =>
      PExprIsMeaning(l, tri, env);
      if PExpr(l, tri) != Some(2) {
        PExprIsMeaning(r, tri, env);
      }
    case Not(a) => PExprIsMeaning(a, tri, env);
    case Rel(op, a, b) =>
  }

  lemma {:induction false} PMaxIsMeaning(es: seq<Expr>, tri: map<Id, Tri>, env: map<Id, Tri>)
    requires Kept(AllSyms(es), tri, env) && PMax(es, tri).Some?
    ensures PMax(es, tri) == Some(MaxMeaning(es, env))
    decreases |es|
  {
    if es != [] {
      PExprIsMeaning(es[0], tri, env);
      PMaxIsMeaning(es[1..], tri, env);
    }
  }

  lemma {:induction false} PDefaultIsMeaning(ds: seq<(Expr, Expr)>, tri: map<Id, Tri>, env: map<Id, Tri>)
    requires Kept(DefaultSyms(ds), tri, env) && PDefault(ds, tri).Some?
    ensures PDefault(ds, tri) == Some(DefaultMeaning(ds, env))
    decreases |ds|
  {
    if ds != [] {
      PExprIsMeaning(ds[0].1, tri, env);
      if PExpr(ds[0].1, tri) == Some(0) {
        PDefaultIsMeaning(ds[1..], tri, env);
      } else {
        PExprIsMeaning(ds[0].0, tri, env);
      }
    }
  }

  lemma PVisIsMeaning(c: Config, y: Symbol, tri: map<Id, Tri>, env: map<Id, Tri>)
    requires Kept(Deps(y), tri, env) && (y.origType == Tristate ==> Kept({c.modules}, tri, env)) && PVis(c, y, tri).Some?
    ensures PVis(c, y, tri) == Some(VisMeaning(c, y, env))
  {
    PMaxIsMeaning(y.prompts, tri, env);
  }

  lemma PTriIsMeaning(c: Config, y: Symbol, user: Option<Tri>, vis: Tri, tri: map<Id, Tri>, env: map<Id, Tri>)
    requires Kept(Deps(y), tri, env) && (y.origType == Tristate ==> Kept({c.modules}, tri, env)) && y.origType != Other
    requires PTri(c, y, user, vis, tri).Some? && vis == VisMeaning(c, y, env)
    ensures PTri(c, y, user, vis, tri) == Some(TriMeaning(c, y, user, env))
  {
    hide VisMeaning, ExprMeaning, PExpr, BaseMeaning, PBase;
    PBaseIsMeaning(y, user, vis, tri, env);
    PExprIsMeaning(y.revDep, tri, env);
    if PExpr(y.weakRevDep, tri).Some? {
      PExprIsMeaning(y.weakRevDep, tri, env);
    }
  }

  lemma PBaseIsMeaning(y: Symbol, user: Option<Tri>, vis: Tri, tri: map<Id, Tri>, env: map<Id, Tri>)
    requires Kept(Deps(y), tri, env) && PBase(y, user, vis, tri).Some?
    ensures PBase(y, user, vis, tri) == Some(BaseMeaning(y, user, vis, env))
  {
    hide ExprMeaning, DefaultMeaning, PExpr, PDefault;
    if vis == 0 || user == None {
      PDefaultIsMeaning(y.defaults, tri, env);
      PExprIsMeaning(y.weakRevDep, tri, env);
      if PExpr(y.weakRevDep, tri) != Some(0) {
        PExprIsMeaning(y.directDep, tri, env);
      }
    }
  }

  /** Every cached value is the one that evaluation without any cache gives under the current user values. */
  lemma {:induction false} CachedIsMeaning(c: Config, rank: map<Id, nat>, user: map<Id, Tri>,
                                           tri: map<Id, Tri>, vis: map<Id, Tri>, env: map<Id, Tri>, s: Id)
    requires WellFormed(c, rank) && Coherent(c, user, tri, vis) && Solution(c, user, env) && s in c.syms
    ensures s in tri ==> tri[s] == env[s]
    ensures s in vis ==> vis[s] == VisMeaning(c, c.syms[s], env)
    decreases rank[s]
  {
    hide Deps, VisMeaning, TriMeaning, PVis, PTri, WellFormed, Coherent, Solution;
    var y := c.syms[s];
    Below(c, rank, s);
    CoherentAt(c, user, tri, vis, s);
    SolutionAt(c, user, env, s);
    if s in tri || s in vis {
      forall d | d in Deps(y) && d in tri
        ensures d in env && env[d] == tri[d]
      {
        SolutionAt(c, user, env, d);
        CachedIsMeaning(c, rank, user, tri, vis, env, d);
      }
      if y.origType == Tristate {
        SolutionAt(c, user, env, c.modules);
        CachedIsMeaning(c, rank, user, tri, vis, env, c.modules);
      }
      if s in vis {
        PVisIsMeaning(c, y, tri, env);
      }
      if s in tri && y.origType != Other {
        PTriIsMeaning(c, y, UserOf(user, s), vis[s], tri, env);
      }
      if y.origType == Other {
        OtherIsNo(c, y, UserOf(user, s), env);
      }
    }
  }

  lemma Below(c: Config, rank: map<Id, nat>, s: Id)
    requires WellFormed(c, rank) && s in c.syms
    ensures s in rank && c.modules in c.syms && c.modules in rank
    ensures forall d | d in Deps(c.syms[s]) :: d in c.syms && d in rank && rank[d] < rank[s]
    ensures c.syms[s].origType == Tristate ==> rank[c.modules] < rank[s]
  {
    hide Deps;
  }

  lemma CoherentAt(c: Config, user: map<Id, Tri>, tri: map<Id, Tri>, vis: map<Id, Tri>, s: Id)
    requires Coherent(c, user, tri, vis) && s in c.syms
    ensures s in vis ==> PVis(c, c.syms[s], tri) == Some(vis[s])
    ensures s in tri ==>
      if c.syms[s].origType == Other then tri[s] == 0
      else s in vis && PTri(c, c.syms[s], UserOf(user, s), vis[s], tri) == Some(tri[s])
  {
    hide PVis, PTri;
  }

  lemma SolutionAt(c: Config, user: map<Id, Tri>, env: map<Id, Tri>, s: Id)
    requires Solution(c, user, env) && s in c.syms
    ensures s in env && env[s] == TriMeaning(c, c.syms[s], UserOf(user, s), env)
  {
    hide TriMeaning;
  }

  lemma OtherIsNo(c: Config, y: Symbol, user: Option<Tri>, env: map<Id, Tri>)
    requires y.origType == Other
    ensures TriMeaning(c, y, user, env) == 0
  {
  }

  // --- what evaluation does to the caches: it only adds to them, and below a rank only ---

  ghost predicate Submap(m: map<Id, Tri>, m': map<Id, Tri>) {
    forall d | d in m :: d in m' && m'[d] == m[d]
  }

  ghost predicate Grown(rank: map<Id, nat>, bound: nat, m: map<Id, Tri>, m': map<Id, Tri>) {
    Submap(m, m') && forall d | d in m' && d !in m :: d in rank && rank[d] < bound
  }

  lemma GrownTrans(rank: map<Id, nat>, bound: nat, a: map<Id, Tri>, b: map<Id, Tri>, c: map<Id, Tri>)
    requires Grown(rank, bound, a, b) && Grown(rank, bound, b, c)
    ensures Grown(rank, bound, a, c)
  {
  }

  lemma GrownSelf(rank: map<Id, nat>, bound: nat, a: map<Id, Tri>)
    ensures Grown(rank, bound, a, a)
  {
  }

  lemma GrownMore(rank: map<Id, nat>, bound: nat, bound': nat, a: map<Id, Tri>, b: map<Id, Tri>)
    requires Grown(rank, bound, a, b) && bound <= bound'
    ensures Grown(rank, bound', a, b)
  {
  }

  lemma GrownAdd(rank: map<Id, nat>, bound: nat, a: map<Id, Tri>, b: map<Id, Tri>, s: Id, v: Tri)
    requires Grown(rank, bound, a, b) && s in rank && rank[s] == bound && s !in a
    ensures s !in b && Grown(rank, bound + 1, a, b[s := v])
  {
  }

  lemma GrownKept(rank: map<Id, nat>, bound: nat, a: map<Id, Tri>, b: map<Id, Tri>, ids: set<Id>)
    requires Grown(rank, bound, a, b)
    ensures Kept(ids, a, b)
  {
  }

  lemma AddTri(c: Config, user: map<Id, Tri>, tri: map<Id, Tri>, vis: map<Id, Tri>, s: Id, v: Tri)
    requires Coherent(c, user, tri, vis) && s in c.syms && s !in tri
    requires if c.syms[s].origType == Other then v == 0
             else s in vis && PTri(c, c.syms[s], UserOf(user, s), vis[s], tri) == Some(v)
    ensures Coherent(c, user, tri[s := v], vis)
  {
    hide PTri, PVis, Deps;
    var tri' := tri[s := v];
    forall x | x in vis
      ensures x in c.syms && PVis(c, c.syms[x], tri') == Some(vis[x])
    {
      PVisKept(c, c.syms[x], tri, tri');
    }
    forall x | x in tri' && x in c.syms && c.syms[x].origType != Other
      ensures x in vis && PTri(c, c.syms[x], UserOf(user, x), vis[x], tri') == Some(tri'[x])
    {
      PTriKept(c, c.syms[x], UserOf(user, x), vis[x], tri, tri');
    }
  }

  lemma AddVis(c: Config, user: map<Id, Tri>, tri: map<Id, Tri>, vis: map<Id, Tri>, s: Id, v: Tri)
    requires Coherent(c, user, tri, vis) && s in c.syms && s !in vis && PVis(c, c.syms[s], tri) == Some(v)
    ensures Coherent(c, user, tri, vis[s := v])
  {
    hide PTri, PVis;
  }

  // --- what invalidation does to the caches ---

  // From the first pair of caches to the second, nothing changes but that the values of some symbols are forgotten:
  // those of each symbol in `roots`, and of each symbol that had a cached visibility and has none now (or all values).
  ghost predicate Shrunk(roots: set<Id>, tri0: map<Id, Tri>, vis0: map<Id, Tri>, tri: map<Id, Tri>, vis: map<Id, Tri>) {
    && Submap(tri, tri0) && Submap(vis, vis0)
    && (forall d | d in roots :: d !in tri && d !in vis)
    && (forall d | d in vis0 && d !in vis :: d !in tri)
    && (forall d | d in tri0 && d !in tri :: d in roots || (d in vis0 && d !in vis) || vis == map[])
  }

  // No symbol that depends on a forgotten one is still remembered.
  ghost predicate Closed(dependents: map<Id, set<Id>>, roots: set<Id>, vis0: map<Id, Tri>, vis: map<Id, Tri>) {
    forall d, x | d in dependents && x in dependents[d] && (d in roots || (d in vis0 && d !in vis)) :: x !in vis
  }

  // Once MODULES is forgotten, so is everything.
  ghost predicate ModulesGone(m: Id, roots: set<Id>, vis0: map<Id, Tri>, tri: map<Id, Tri>, vis: map<Id, Tri>) {
    m in roots || (m in vis0 && m !in vis) ==> tri == map[] && vis == map[]
  }

  ghost predicate Invalidated(c: Config, dependents: map<Id, set<Id>>, s: Id,
                              tri0: map<Id, Tri>, vis0: map<Id, Tri>, tri: map<Id, Tri>, vis: map<Id, Tri>)
  {
    Shrunk({s}, tri0, vis0, tri, vis) && Closed(dependents, {s}, vis0, vis) && ModulesGone(c.modules, {s}, vis0, tri, vis)
  }

  // Half-way through the loop of _rec_invalidate: the dependents of s in `done` have been dealt with.
  ghost predicate Invalidating(c: Config, dependents: map<Id, set<Id>>, s: Id, done: set<Id>,
                               tri0: map<Id, Tri>, vis0: map<Id, Tri>, tri: map<Id, Tri>, vis: map<Id, Tri>)
  {
    && Shrunk({s}, tri0, vis0, tri, vis)
    && (forall d, x | d in dependents && x in dependents[d] && d != s && d in vis0 && d !in vis :: x !in vis)
    && (forall x | x in done :: x !in vis)
    && s != c.modules && ModulesGone(c.modules, {s}, vis0, tri, vis)
  }

  lemma InvalidatingStart(c: Config, dependents: map<Id, set<Id>>, s: Id, tri: map<Id, Tri>, vis: map<Id, Tri>)
    requires s != c.modules
    ensures Invalidating(c, dependents, s, {}, tri, vis, tri - {s}, vis - {s})
  {
  }

  lemma InvalidatingSkip(c: Config, dependents: map<Id, set<Id>>, s: Id, done: set<Id>, x: Id,
                         tri0: map<Id, Tri>, vis0: map<Id, Tri>, tri: map<Id, Tri>, vis: map<Id, Tri>)
    requires Invalidating(c, dependents, s, done, tri0, vis0, tri, vis) && x !in vis
    ensures Invalidating(c, dependents, s, done + {x}, tri0, vis0, tri, vis)
  {
  }

  lemma InvalidatingNext(c: Config, dependents: map<Id, set<Id>>, s: Id, done: set<Id>, x: Id,
                         tri0: map<Id, Tri>, vis0: map<Id, Tri>, tri1: map<Id, Tri>, vis1: map<Id, Tri>,
                         tri: map<Id, Tri>, vis: map<Id, Tri>)
    requires Invalidating(c, dependents, s, done, tri0, vis0, tri1, vis1) && x in vis1
    requires Invalidated(c, dependents, x, tri1, vis1, tri, vis)
    ensures Invalidating(c, dependents, s, done + {x}, tri0, vis0, tri, vis)
  {
  }

  lemma InvalidatingEnd(c: Config, dependents: map<Id, set<Id>>, s: Id, done: set<Id>,
                        tri0: map<Id, Tri>, vis0: map<Id, Tri>, tri: map<Id, Tri>, vis: map<Id, Tri>)
    requires Invalidating(c, dependents, s, done, tri0, vis0, tri, vis) && s in dependents && dependents[s] <= done
    ensures Invalidated(c, dependents, s, tri0, vis0, tri, vis)
  {
  }

  /** The dependents of a symbol are the symbols with an expression that mentions it. */
  ghost predicate DependentsOk(c: Config, dependents: map<Id, set<Id>>) {
    && dependents.Keys == c.syms.Keys
    && forall d | d in dependents :: dependents[d] == set s | s in c.syms && d in Deps(c.syms[s])
  }

  /** Stopping at symbols without cached visibility forgets enough: whatever stays cached is still justified. */
  lemma InvalidationKeepsCoherent(c: Config, rank: map<Id, nat>, dependents: map<Id, set<Id>>, s: Id,
                                  user0: map<Id, Tri>, tri0: map<Id, Tri>, vis0: map<Id, Tri>,
                                  user: map<Id, Tri>, tri: map<Id, Tri>, vis: map<Id, Tri>)
    requires WellFormed(c, rank) && DependentsOk(c, dependents) && Coherent(c, user0, tri0, vis0)
    requires Invalidated(c, dependents, s, tri0, vis0, tri, vis)
    requires forall x | x != s :: UserOf(user, x) == UserOf(user0, x)
    ensures Coherent(c, user, tri, vis)
  {
    hide PTri, PVis, Deps;
    forall x | x in vis
      ensures x in c.syms && Kept(Deps(c.syms[x]), tri0, tri) && Kept({c.modules}, tri0, tri)
      ensures PVis(c, c.syms[x], tri) == Some(vis[x])
    {
      RememberedDeps(c, rank, dependents, s, tri0, vis0, tri, vis, x);
      PVisKept(c, c.syms[x], tri0, tri);
    }
    forall x | x in tri && c.syms[x].origType != Other
      ensures x in vis && PTri(c, c.syms[x], UserOf(user, x), vis[x], tri) == Some(tri[x])
    {
      PTriKept(c, c.syms[x], UserOf(user, x), vis[x], tri0, tri);
    }
  }

  lemma RememberedDeps(c: Config, rank: map<Id, nat>, dependents: map<Id, set<Id>>, s: Id,
                       tri0: map<Id, Tri>, vis0: map<Id, Tri>, tri: map<Id, Tri>, vis: map<Id, Tri>, x: Id)
    requires WellFormed(c, rank) && DependentsOk(c, dependents) && x in c.syms && x in vis
    requires Invalidated(c, dependents, s, tri0, vis0, tri, vis)
    ensures Kept(Deps(c.syms[x]), tri0, tri) && Kept({c.modules}, tri0, tri)
  {
    hide Deps;
    forall d | d in Deps(c.syms[x]) && d in tri0
      ensures d in tri
    {
      assert d in dependents && x in dependents[d];
    }
  }

  /** The user value of a symbol without a prompt has no effect. */
  lemma {:induction false} PromptlessIgnoresUser(c: Config, user: map<Id, Tri>, user': map<Id, Tri>,
                                                 tri: map<Id, Tri>, vis: map<Id, Tri>, s: Id)
    requires Coherent(c, user, tri, vis) && s in c.syms && c.syms[s].prompts == []
    requires forall x | x != s :: UserOf(user', x) == UserOf(user, x)
    ensures Coherent(c, user', tri, vis)
  {
    hide PExpr, PDefault, PPromote;
    assert s in vis ==> vis[s] == 0;
    forall x | x in tri && c.syms[x].origType != Other
      ensures PTri(c, c.syms[x], UserOf(user', x), vis[x], tri) == Some(tri[x])
    {
      if x == s {
        assert PBase(c.syms[x], UserOf(user', x), 0, tri) == PBase(c.syms[x], UserOf(user, x), 0, tri);
      }
    }
  }

  // --- helpers for the loops of the evaluator ---

  lemma {:induction false} PMaxAppend(es: seq<Expr>, i: nat, tri: map<Id, Tri>)
    requires i < |es| && PMax(es[..i], tri).Some? && PExpr(es[i], tri).Some?
    ensures PMax(es[..i + 1], tri) == Some(Max(PMax(es[..i], tri).value, PExpr(es[i], tri).value))
  {
    if i == 0 {
      assert es[..1][1..] == [];
    } else {
      assert es[..i][1..] == es[1..][..i - 1] && es[..i + 1][1..] == es[1..][..i];
      PMaxAppend(es[1..], i - 1, tri);
    }
  }

  lemma {:induction false} SkipDefaults(ds: seq<(Expr, Expr)>, i: nat, tri: map<Id, Tri>)
    requires i <= |ds| && forall j | 0 <= j < i :: PExpr(ds[j].1, tri) == Some(0)
    ensures PDefault(ds, tri) == PDefault(ds[i..], tri)
  {
    if i > 0 {
      SkipDefaults(ds[1..], i - 1, tri);
      assert ds[1..][i - 1..] == ds[i..];
    }
  }

  lemma {:induction false} SymsOfElement(es: seq<Expr>, i: nat)
    requires i < |es|
    ensures Syms(es[i]) <= AllSyms(es)
  {
    if i > 0 {
      SymsOfElement(es[1..], i - 1);
    }
  }

  lemma {:induction false} SymsOfDefault(ds: seq<(Expr, Expr)>, i: nat)
    requires i < |ds|
    ensures Syms(ds[i].0) + Syms(ds[i].1) <= DefaultSyms(ds)
  {
    if i > 0 {
      SymsOfDefault(ds[1..], i - 1);
    }
  }

  // What evaluating an expression, or part of a symbol, needs: all symbols in it are known and of lower rank.
  ghost predicate BelowRank(c: Config, rank: map<Id, nat>, ids: set<Id>, bound: nat) {
    forall d | d in ids :: d in c.syms && d in rank && rank[d] < bound
  }

  lemma SymbolBelow(c: Config, rank: map<Id, nat>, s: Id)
    requires WellFormed(c, rank) && s in c.syms
    ensures var y := c.syms[s];
      && s in rank && BelowRank(c, rank, AllSyms(y.prompts), rank[s]) && BelowRank(c, rank, DefaultSyms(y.defaults), rank[s])
      && BelowRank(c, rank, Syms(y.revDep), rank[s]) && BelowRank(c, rank, Syms(y.weakRevDep), rank[s])
      && BelowRank(c, rank, Syms(y.directDep), rank[s])
      && c.modules in c.syms && c.modules in rank && (y.origType == Tristate ==> rank[c.modules] < rank[s])
  {
    hide AllSyms, DefaultSyms, Syms;
    assert forall d | d in Deps(c.syms[s]) :: d in c.syms && rank[d] < rank[s];
  }

  function Added(dependents: map<Id, set<Id>>, s: Id, ids: set<Id>): (r: map<Id, set<Id>>)
    ensures r.Keys == dependents.Keys
  {
    map d | d in dependents :: if d in ids then dependents[d] + {s} else dependents[d]
  }

  lemma AddedTwice(dependents: map<Id, set<Id>>, s: Id, a: set<Id>, b: set<Id>)
    ensures Added(Added(dependents, s, a), s, b) == Added(dependents, s, a + b)
    ensures Added(dependents, s, {}) == dependents
  {
  }

  lemma AddedItem(dependents: map<Id, set<Id>>, s: Id, i: Item)
    ensures Added(dependents, s, ItemSyms(i)) ==
            if i.Sym? && i.id in dependents then dependents[i.id := dependents[i.id] + {s}] else dependents
  {
  }

  ghost predicate DependentsUpTo(c: Config, dependents: map<Id, set<Id>>, done: set<Id>) {
    && dependents.Keys == c.syms.Keys
    && forall d | d in dependents :: dependents[d] == set s | s in c.syms && s in done && d in Deps(c.syms[s])
  }

  lemma DependentsNext(c: Config, dependents: map<Id, set<Id>>, done: set<Id>, s: Id)
    requires DependentsUpTo(c, dependents, done) && s in c.syms
    ensures DependentsUpTo(c, Added(dependents, s, Deps(c.syms[s])), done + {s})
  {
    hide Deps;
  }

  lemma DependentsAll(c: Config, dependents: map<Id, set<Id>>)
    requires DependentsUpTo(c, dependents, c.syms.Keys)
    ensures DependentsOk(c, dependents)
  {
    hide Deps;
    forall d | d in dependents
      ensures dependents[d] == set s | s in c.syms && d in Deps(c.syms[s])
    {
      assert forall s :: s in dependents[d] <==> s in c.syms && d in Deps(c.syms[s]);
    }
  }

  class Kconfig {
    const c: Config
    ghost const rank: map<Id, nat>
    var dependents: map<Id, set<Id>>   // _dependents
    var user: map<Id, Tri>             // user_value, where there is one
    var tri: map<Id, Tri>              // _cached_tri_val, where there is one
    var vis: map<Id, Tri>              // _cached_vis, where there is one

    ghost predicate Valid()
      reads this
    {
      WellFormed(c, rank) && DependentsOk(c, dependents) && Coherent(c, user, tri, vis)
    }

    constructor (config: Config, ghost rank: map<Id, nat>)
      requires WellFormed(config, rank)
      ensures Valid() && c == config && user == map[]
    {
      hide WellFormed, DependentsOk;
      c, this.rank := config, rank;
      user, tri, vis := map[], map[], map[];
      dependents := map s | s in config.syms :: {};
      new;
      BuildDep();
    }

    // _make_depend_on
    method MakeDependOn(s: Id, e: Expr)
      modifies this`dependents
      ensures dependents == Added(old(dependents), s, Syms(e))
      decreases e
    {
      match e
      case Atom(i) => DependOnItem(s, i);
      case And(l, r) =>
        AddedTwice(dependents, s, Syms(l), Syms(r));
        MakeDependOn(s, l);
        MakeDependOn(s, r);
      case Or(l, r) =>
        AddedTwice(dependents, s, Syms(l), Syms(r));
        MakeDependOn(s, l);
        MakeDependOn(s, r);
      case Not(a) => MakeDependOn(s, a);
      case Rel(op, a, b) =>
        AddedTwice(dependents, s, ItemSyms(a), ItemSyms(b));
        DependOnItem(s, a);
        DependOnItem(s, b);
    }

    // constants never change and are skipped
    method DependOnItem(s: Id, i: Item)
      modifies this`dependents
      ensures dependents == Added(old(dependents), s, ItemSyms(i))
    {
      AddedItem(dependents, s, i);
      if i.Sym? && i.id in dependents {
        dependents := dependents[i.id := dependents[i.id] + {s}];
      }
    }

    // _build_dep
    method BuildDep()
      requires WellFormed(c, rank) && dependents == map s | s in c.syms :: {}
      modifies this`dependents
      ensures DependentsOk(c, dependents)
    {
      hide Deps, WellFormed, Added;
      var todo := c.syms.Keys;
      ghost var done: set<Id> := {};
      while todo != {}
        invariant todo + done == c.syms.Keys && todo !! done
        invariant DependentsUpTo(c, dependents, done)
        decreases todo
      {
        var s :| s in todo;
        ghost var before := dependents;
        DependSymbol(s);
        DependentsNext(c, before, done, s);
        todo := todo - {s};
        done := done + {s};
      }
      assert done == c.syms.Keys;
      DependentsAll(c, dependents);
    }

    // one symbol's turn in _build_dep
    method DependSymbol(s: Id)
      requires s in c.syms
      modifies this`dependents
      ensures dependents == Added(old(dependents), s, Deps(c.syms[s]))
    {
      hide Added, Syms, AllSyms, DefaultSyms;
      var y := c.syms[s];
      ghost var d0 := dependents;
      DependOnPrompts(s, y.prompts);
      DependOnDefaults(s, y.defaults);
      AddedTwice(d0, s, AllSyms(y.prompts), DefaultSyms(y.defaults));
      MakeDependOn(s, y.revDep);
      AddedTwice(d0, s, AllSyms(y.prompts) + DefaultSyms(y.defaults), Syms(y.revDep));
      MakeDependOn(s, y.weakRevDep);
      AddedTwice(d0, s, AllSyms(y.prompts) + DefaultSyms(y.defaults) + Syms(y.revDep), Syms(y.weakRevDep));
      MakeDependOn(s, y.directDep);
      AddedTwice(d0, s, AllSyms(y.prompts) + DefaultSyms(y.defaults) + Syms(y.revDep) + Syms(y.weakRevDep), Syms(y.directDep));
    }

    method DependOnPrompts(s: Id, es: seq<Expr>)
      modifies this`dependents
      ensures dependents == Added(old(dependents), s, AllSyms(es))
    {
      hide Added, Syms;
      ghost var ids: set<Id> := {};
      AddedTwice(dependents, s, {}, {});
      var i := 0;
      while i < |es|
        invariant i <= |es| && dependents == Added(old(dependents), s, ids) && ids + AllSyms(es[i..]) == AllSyms(es)
      {
        MakeDependOn(s, es[i]);
        AddedTwice(old(dependents), s, ids, Syms(es[i]));
        ids := ids + Syms(es[i]);
        i := i + 1;
      }
    }

    method DependOnDefaults(s: Id, ds: seq<(Expr, Expr)>)
      modifies this`dependents
      ensures dependents == Added(old(dependents), s, DefaultSyms(ds))
    {
      hide Added, Syms;
      ghost var ids: set<Id> := {};
      AddedTwice(dependents, s, {}, {});
      var i := 0;
      while i < |ds|
        invariant i <= |ds| && dependents == Added(old(dependents), s, ids) && ids + DefaultSyms(ds[i..]) == DefaultSyms(ds)
      {
        MakeDependOn(s, ds[i].0);
        AddedTwice(old(dependents), s, ids, Syms(ds[i].0));
        MakeDependOn(s, ds[i].1);
        AddedTwice(old(dependents), s, ids + Syms(ds[i].0), Syms(ds[i].1));
        ids := ids + Syms(ds[i].0) + Syms(ds[i].1);
        i := i + 1;
      }
    }

    // expr_value
    method ExprValue(e: Expr, ghost bound: nat) returns (v: Tri)
      requires Valid() && BelowRank(c, rank, Syms(e), bound)
      modifies this`tri, this`vis
      ensures Valid() && Grown(rank, bound, old(tri), tri) && Grown(rank, bound, old(vis), vis)
      ensures PExpr(e, tri) == Some(v)
      decreases bound, 1, e
    {
      hide Valid, Grown;
      match e
      case Atom(i) => v := ItemOf(i, bound);
      case And(l, r) =>
        v := ExprValue(l, bound);
        if v != 0 {
          ghost var tri1, vis1 := tri, vis;
          var w := ExprValue(r, bound);
          GrownTrans(rank, bound, old(tri), tri1, tri);
          GrownTrans(rank, bound, old(vis), vis1, vis);
          GrownKept(rank, bound, tri1, tri, Syms(l));
          PExprKept(l, tri1, tri);
          v := Min(v, w);
        }
      case Or(l, r) =>
        v := ExprValue(l, bound);
        if v != 2 {
          ghost var tri1, vis1 := tri, vis;
          var w := ExprValue(r, bound);
          GrownTrans(rank, bound, old(tri), tri1, tri);
          GrownTrans(rank, bound, old(vis), vis1, vis);
          GrownKept(rank, bound, tri1, tri, Syms(l));
          PExprKept(l, tri1, tri);
          v := Max(v, w);
        }
      case Not(a) =>
        v := ExprValue(a, bound);
        v := 2 - v;
      case Rel(op, a, b) =>
        var x := ItemOf(a, bound);
        ghost var tri1, vis1 := tri, vis;
        var z := ItemOf(b, bound);
        GrownTrans(rank, bound, old(tri), tri1, tri);
        GrownTrans(rank, bound, old(vis), vis1, vis);
        GrownKept(rank, bound, tri1, tri, ItemSyms(a));
        v := if Holds(op, (x as int) - (z as int)) then 2 else 0;
    }

    method ItemOf(i: Item, ghost bound: nat) returns (v: Tri)
      requires Valid() && BelowRank(c, rank, ItemSyms(i), bound)
      modifies this`tri, this`vis
      ensures Valid() && Grown(rank, bound, old(tri), tri) && Grown(rank, bound, old(vis), vis)
      ensures PItem(i, tri) == Some(v)
      decreases bound, 0
    {
      hide Valid, Grown;
      match i
      case Const(x) =>
        GrownSelf(rank, bound, tri);
        GrownSelf(rank, bound, vis);
        v := x;
      case Sym(d) =>
        v := TriValue(d);
        GrownMore(rank, rank[d] + 1, bound, old(tri), tri);
        GrownMore(rank, rank[d] + 1, bound, old(vis), vis);
    }

    // Symbol.tri_value
    method TriValue(s: Id) returns (v: Tri)
      requires Valid() && s in c.syms && s in rank
      modifies this`tri, this`vis
      ensures Valid() && Grown(rank, rank[s] + 1, old(tri), tri) && Grown(rank, rank[s] + 1, old(vis), vis)
      ensures s in tri && tri[s] == v
      decreases rank[s], 6
    {
      hide Grown, Coherent, WellFormed, DependentsOk, PTri, Deps;
      ghost var n := rank[s];
      GrownSelf(rank, n + 1, tri);
      GrownSelf(rank, n + 1, vis);
      if s in tri {
        return tri[s];
      }
      if c.syms[s].origType == Other {
        v := 0;
        GrownSelf(rank, n, tri);
        GrownAdd(rank, n, tri, tri, s, v);
      } else {
        v := Compute(s);
        GrownAdd(rank, n, old(tri), tri, s, v);
      }
      AddTri(c, user, tri, vis, s, v);
      tri := tri[s := v];
    }

    // The value of a symbol whose value is not cached.
    method Compute(s: Id) returns (val: Tri)
      requires Valid() && s in c.syms && s in rank && c.syms[s].origType != Other && s !in tri
      modifies this`tri, this`vis
      ensures Valid() && Grown(rank, rank[s], old(tri), tri) && Grown(rank, rank[s] + 1, old(vis), vis)
      ensures s in vis && PTri(c, c.syms[s], UserOf(user, s), vis[s], tri) == Some(val)
      decreases rank[s], 5
    {
      hide Valid, Grown, PBase, PPromote, PExpr, Deps;
      ghost var n, y, u := rank[s], c.syms[s], UserOf(user, s);
      ValidBelow(s);
      var v := Visibility(s);
      ghost var tri1, vis1 := tri, vis;
      var base := Base(s, v);
      ghost var tri2, vis2 := tri, vis;
      GrowBoth(n, old(tri), tri1, tri2, old(vis), vis1, vis2);
      var rev := ExprValue(c.syms[s].revDep, n);
      ghost var tri3, vis3 := tri, vis;
      GrowBoth(n, old(tri), tri2, tri3, old(vis), vis2, vis3);
      if rev != 0 {
        // for the warning about unsatisfied dependencies
        var direct := ExprValue(c.syms[s].directDep, n);
      } else {
        GrownSelf(rank, n, tri);
        GrownSelf(rank, n, vis);
      }
      ghost var tri4, vis4 := tri, vis;
      GrowBoth(n, old(tri), tri3, tri4, old(vis), vis3, vis4);
      val := Promoted(s, Max(rev, base));
      GrowBoth(n, old(tri), tri4, tri, old(vis), vis4, vis);
      TriAssembled(y, u, v, base, rev, val, n, tri2, tri3, tri4);
      VisStays(s, n, vis1, vis2, vis3, vis4, vis);
    }

    // the part of Symbol.tri_value up to the weak reverse dependencies
    method Base(s: Id, v: Tri) returns (val: Tri)
      requires Valid() && s in c.syms && s in rank
      modifies this`tri, this`vis
      ensures Valid() && Grown(rank, rank[s], old(tri), tri) && Grown(rank, rank[s], old(vis), vis)
      ensures PBase(c.syms[s], UserOf(user, s), v, tri) == Some(val)
      decreases rank[s], 3
    {
      hide Valid, Grown, PExpr, PDefault, Deps;
      ghost var n := rank[s];
      ValidBelow(s);
      if v != 0 && s in user {
        val := Min(user[s], v);
        GrownSelf(rank, n, tri);
        GrownSelf(rank, n, vis);
        return;
      }
      val := Default(c.syms[s].defaults, n);
      ghost var d, tri1, vis1 := val, tri, vis;
      var weak := ExprValue(c.syms[s].weakRevDep, n);
      ghost var tri2, vis2 := tri, vis;
      GrowBoth(n, old(tri), tri1, tri2, old(vis), vis1, vis2);
      DefaultStays(c.syms[s].defaults, n, tri1, tri2);
      if weak != 0 {
        var direct := ExprValue(c.syms[s].directDep, n);
        GrowBoth(n, old(tri), tri2, tri, old(vis), vis2, vis);
        DefaultStays(c.syms[s].defaults, n, tri2, tri);
        ExprStays(c.syms[s].weakRevDep, n, tri2, tri);
        if direct != 0 {
          val := Max(weak, val);
        }
      }
    }

    // the loop over the defaults
    method Default(ds: seq<(Expr, Expr)>, ghost bound: nat) returns (val: Tri)
      requires Valid() && BelowRank(c, rank, DefaultSyms(ds), bound)
      modifies this`tri, this`vis
      ensures Valid() && Grown(rank, bound, old(tri), tri) && Grown(rank, bound, old(vis), vis)
      ensures PDefault(ds, tri) == Some(val)
      decreases bound, 2
    {
      hide Valid, Grown, PExpr, DefaultSyms, Syms;
      var i := 0;
      GrownSelf(rank, bound, tri);
      GrownSelf(rank, bound, vis);
      while i < |ds|
        invariant i <= |ds| && Valid()
        invariant Grown(rank, bound, old(tri), tri) && Grown(rank, bound, old(vis), vis)
        invariant forall j | 0 <= j < i :: PExpr(ds[j].1, tri) == Some(0)
      {
        ghost var tri1, vis1 := tri, vis;
        SymsOfDefault(ds, i);
        var cond := ExprValue(ds[i].1, bound);
        GrowBoth(bound, old(tri), tri1, tri, old(vis), vis1, vis);
        CondsStay(ds, i, bound, tri1, tri);
        if cond != 0 {
          ghost var tri2, vis2 := tri, vis;
          var v := ExprValue(ds[i].0, bound);
          GrowBoth(bound, old(tri), tri2, tri, old(vis), vis2, vis);
          CondsStay(ds, i, bound, tri2, tri);
          ExprStays(ds[i].1, bound, tri2, tri);
          SkipDefaults(ds, i, tri);
          return Min(v, cond);
        }
        i := i + 1;
      }
      SkipDefaults(ds, i, tri);
      return 0;
    }

    // m is promoted to y
    method Promoted(s: Id, val: Tri) returns (r: Tri)
      requires Valid() && s in c.syms && s in rank
      modifies this`tri, this`vis
      ensures Valid() && Grown(rank, rank[s], old(tri), tri) && Grown(rank, rank[s], old(vis), vis)
      ensures PPromote(c, c.syms[s], val, tri) == Some(r)
      decreases rank[s], 3
    {
      hide Valid, Grown, PExpr, Deps;
      ghost var n := rank[s];
      ValidBelow(s);
      r := val;
      GrownSelf(rank, n, tri);
      GrownSelf(rank, n, vis);
      if val == 1 {
        var t := TypeIsTristate(s);
        if !t {
          r := 2;
        } else {
          ghost var tri1, vis1 := tri, vis;
          var weak := ExprValue(c.syms[s].weakRevDep, n);
          GrowBoth(n, old(tri), tri1, tri, old(vis), vis1, vis);
          ModulesStay(n, tri1, tri);
          if weak == 2 {
            r := 2;
          }
        }
      }
    }

    // Symbol.type is TRISTATE
    method TypeIsTristate(s: Id) returns (b: bool)
      requires Valid() && s in c.syms && s in rank
      modifies this`tri, this`vis
      ensures Valid() && Grown(rank, rank[s], old(tri), tri) && Grown(rank, rank[s], old(vis), vis)
      ensures PIsTristate(c, c.syms[s], tri) == Some(b)
      decreases rank[s], 2
    {
      hide Valid, Grown, Deps;
      ValidBelow(s);
      GrownSelf(rank, rank[s], tri);
      GrownSelf(rank, rank[s], vis);
      b := false;
      if c.syms[s].origType == Tristate {
        var m := TriValue(c.modules);
        GrownMore(rank, rank[c.modules] + 1, rank[s], old(tri), tri);
        GrownMore(rank, rank[c.modules] + 1, rank[s], old(vis), vis);
        b := m != 0;
      }
    }

    // Symbol.visibility, with the call of _visibility
    method Visibility(s: Id) returns (v: Tri)
      requires Valid() && s in c.syms && s in rank
      modifies this`tri, this`vis
      ensures Valid() && Grown(rank, rank[s], old(tri), tri) && Grown(rank, rank[s] + 1, old(vis), vis)
      ensures s in vis && vis[s] == v
      decreases rank[s], 4
    {
      hide Grown, Coherent, WellFormed, DependentsOk, PVis, Deps;
      ghost var n := rank[s];
      GrownSelf(rank, n, tri);
      GrownSelf(rank, n + 1, vis);
      if s in vis {
        return vis[s];
      }
      v := ComputeVis(s);
      GrownAdd(rank, n, old(vis), vis, s, v);
      AddVis(c, user, tri, vis, s, v);
      vis := vis[s := v];
    }

    // _visibility
    method ComputeVis(s: Id) returns (v: Tri)
      requires Valid() && s in c.syms && s in rank
      modifies this`tri, this`vis
      ensures Valid() && Grown(rank, rank[s], old(tri), tri) && Grown(rank, rank[s], old(vis), vis)
      ensures PVis(c, c.syms[s], tri) == Some(v)
      decreases rank[s], 3
    {
      hide Valid, Grown, PMax, PExpr, Deps;
      ghost var n := rank[s];
      ValidBelow(s);
      v := MaxPrompt(c.syms[s].prompts, n);
      if v == 1 {
        ghost var tri1, vis1 := tri, vis;
        var t := TypeIsTristate(s);
        GrowBoth(n, old(tri), tri1, tri, old(vis), vis1, vis);
        MaxStays(c.syms[s].prompts, n, tri1, tri);
        if !t {
          v := 2;
        }
      }
    }

    // the loop over the prompts
    method MaxPrompt(es: seq<Expr>, ghost bound: nat) returns (v: Tri)
      requires Valid() && BelowRank(c, rank, AllSyms(es), bound)
      modifies this`tri, this`vis
      ensures Valid() && Grown(rank, bound, old(tri), tri) && Grown(rank, bound, old(vis), vis)
      ensures PMax(es, tri) == Some(v)
      decreases bound, 2
    {
      hide Valid, Grown, PExpr, AllSyms, Syms;
      v := 0;
      var i := 0;
      GrownSelf(rank, bound, tri);
      GrownSelf(rank, bound, vis);
      while i < |es|
        invariant i <= |es| && Valid()
        invariant Grown(rank, bound, old(tri), tri) && Grown(rank, bound, old(vis), vis)
        invariant PMax(es[..i], tri) == Some(v)
      {
        ghost var tri1, vis1 := tri, vis;
        SymsOfElement(es, i);
        var w := ExprValue(es[i], bound);
        GrowBoth(bound, old(tri), tri1, tri, old(vis), vis1, vis);
        MaxStays(es[..i], bound, tri1, tri);
        PMaxAppend(es, i, tri);
        v := Max(v, w);
        i := i + 1;
      }
      assert es[..|es|] == es;
    }

    // --- what the steps above rely on ---

    lemma ValidBelow(s: Id)
      requires Valid() && s in c.syms
      ensures var y := c.syms[s];
        && s in rank && BelowRank(c, rank, AllSyms(y.prompts), rank[s]) && BelowRank(c, rank, DefaultSyms(y.defaults), rank[s])
        && BelowRank(c, rank, Syms(y.revDep), rank[s]) && BelowRank(c, rank, Syms(y.weakRevDep), rank[s])
        && BelowRank(c, rank, Syms(y.directDep), rank[s])
        && c.modules in c.syms && c.modules in rank && (y.origType == Tristate ==> rank[c.modules] < rank[s])
    {
      hide WellFormed, DependentsOk, Coherent;
      SymbolBelow(c, rank, s);
    }

    lemma GrowBoth(n: nat, a: map<Id, Tri>, b: map<Id, Tri>, d: map<Id, Tri>, a': map<Id, Tri>, b': map<Id, Tri>, d': map<Id, Tri>)
      requires Grown(rank, n, a, b) && Grown(rank, n, b, d)
      requires (Grown(rank, n, a', b') || Grown(rank, n + 1, a', b')) && Grown(rank, n, b', d')
      ensures Grown(rank, n, a, d) && Grown(rank, n + 1, a', d')
      ensures Grown(rank, n, a', b') ==> Grown(rank, n, a', d')
    {
    }

    lemma ExprStays(e: Expr, n: nat, a: map<Id, Tri>, b: map<Id, Tri>)
      requires Grown(rank, n, a, b) && PExpr(e, a).Some?
      ensures PExpr(e, b) == PExpr(e, a)
    {
      hide Grown;
      GrownKept(rank, n, a, b, Syms(e));
      PExprKept(e, a, b);
    }

    lemma MaxStays(es: seq<Expr>, n: nat, a: map<Id, Tri>, b: map<Id, Tri>)
      requires Grown(rank, n, a, b) && PMax(es, a).Some?
      ensures PMax(es, b) == PMax(es, a)
    {
      hide Grown;
      GrownKept(rank, n, a, b, AllSyms(es));
      PMaxKept(es, a, b);
    }

    lemma DefaultStays(ds: seq<(Expr, Expr)>, n: nat, a: map<Id, Tri>, b: map<Id, Tri>)
      requires Grown(rank, n, a, b) && PDefault(ds, a).Some?
      ensures PDefault(ds, b) == PDefault(ds, a)
    {
      hide Grown;
      GrownKept(rank, n, a, b, DefaultSyms(ds));
      PDefaultKept(ds, a, b);
    }

    lemma CondsStay(ds: seq<(Expr, Expr)>, i: nat, n: nat, a: map<Id, Tri>, b: map<Id, Tri>)
      requires i <= |ds| && Grown(rank, n, a, b) && forall j | 0 <= j < i :: PExpr(ds[j].1, a) == Some(0)
      ensures forall j | 0 <= j < i :: PExpr(ds[j].1, b) == Some(0)
    {
      hide Grown, PExpr;
      forall j | 0 <= j < i
        ensures PExpr(ds[j].1, b) == Some(0)
      {
        ExprStays(ds[j].1, n, a, b);
      }
    }

    lemma ModulesStay(n: nat, a: map<Id, Tri>, b: map<Id, Tri>)
      requires Grown(rank, n, a, b)
      ensures Kept({c.modules}, a, b)
    {
    }

    lemma TriAssembled(y: Symbol, u: Option<Tri>, v: Tri, base: Tri, rev: Tri, val: Tri, n: nat,
                       tri2: map<Id, Tri>, tri3: map<Id, Tri>, tri4: map<Id, Tri>)
      requires Grown(rank, n, tri2, tri3) && Grown(rank, n, tri3, tri4) && Grown(rank, n, tri4, tri)
      requires PBase(y, u, v, tri2) == Some(base) && PExpr(y.revDep, tri3) == Some(rev)
      requires PPromote(c, y, Max(rev, base), tri) == Some(val)
      ensures PTri(c, y, u, v, tri) == Some(val)
    {
      hide Grown, PBase, PExpr, PPromote, Deps;
      GrownTrans(rank, n, tri3, tri4, tri);
      GrownTrans(rank, n, tri2, tri3, tri);
      GrownKept(rank, n, tri2, tri, Deps(y));
      PBaseKept(y, u, v, tri2, tri);
      ExprStays(y.revDep, n, tri3, tri);
    }

    lemma VisStays(s: Id, n: nat, v1: map<Id, Tri>, v2: map<Id, Tri>, v3: map<Id, Tri>, v4: map<Id, Tri>, v5: map<Id, Tri>)
      requires Grown(rank, n, v1, v2) && Grown(rank, n, v2, v3) && Grown(rank, n, v3, v4) && Grown(rank, n, v4, v5) && s in v1
      ensures s in v5 && v5[s] == v1[s]
    {
    }

    // --- invalidation and user values ---

    // _rec_invalidate; the number of cached symbols bounds the recursion, whatever the dependents are
    method RecInvalidate(s: Id)
      requires s in c.syms && dependents.Keys == c.syms.Keys && forall d, x | d in dependents && x in dependents[d] :: x in c.syms
      modifies this`tri, this`vis
      ensures Invalidated(c, dependents, s, old(tri), old(vis), tri, vis)
      decreases vis.Keys - {s}
    {
      hide Invalidating, Invalidated;
      if s == c.modules {
        // _invalidate_all
        AllForgotten(s, tri, vis);
        tri, vis := map[], map[];
        return;
      }
      InvalidatingStart(c, dependents, s, tri, vis);
      tri, vis := tri - {s}, vis - {s};
      var todo := dependents[s];
      ghost var done: set<Id> := {};
      while todo != {}
        invariant todo <= dependents[s] && dependents[s] == todo + done
        invariant Invalidating(c, dependents, s, done, old(tri), old(vis), tri, vis)
        invariant vis.Keys <= old(vis).Keys - {s}
        decreases todo
      {
        var item :| item in todo;
        ghost var tri1, vis1 := tri, vis;
        if item in vis {
          assert item in vis.Keys && vis.Keys - {item} < vis.Keys;
          RecInvalidate(item);
          InvalidatingNext(c, dependents, s, done, item, old(tri), old(vis), tri1, vis1, tri, vis);
          Forgetful(item, tri1, vis1, tri, vis);
        } else {
          InvalidatingSkip(c, dependents, s, done, item, old(tri), old(vis), tri, vis);
        }
        todo := todo - {item};
        done := done + {item};
      }
      InvalidatingEnd(c, dependents, s, done, old(tri), old(vis), tri, vis);
    }

    lemma AllForgotten(s: Id, tri0: map<Id, Tri>, vis0: map<Id, Tri>)
      requires s == c.modules
      ensures Invalidated(c, dependents, s, tri0, vis0, map[], map[])
    {
    }

    lemma Forgetful(x: Id, tri0: map<Id, Tri>, vis0: map<Id, Tri>, tri1: map<Id, Tri>, vis1: map<Id, Tri>)
      requires Invalidated(c, dependents, x, tri0, vis0, tri1, vis1)
      ensures vis1.Keys <= vis0.Keys
    {
    }

    // Symbol.set_value, with a value already turned into a number
    method SetValue(s: Id, value: Tri) returns (ok: bool)
      requires Valid() && s in c.syms
      modifies this`user, this`tri, this`vis
      ensures Valid()
      ensures ok == (UserOf(old(user), s) == Some(value) || Assignable(c.syms[s].origType, value))
      ensures ok == (UserOf(old(user), s) == Some(value) || c.syms[s].origType == Tristate
                     || (c.syms[s].origType == Bool && value in {0, 2}))
      ensures user == if ok then old(user)[s := value] else old(user)
      ensures !ok ==> tri == old(tri) && vis == old(vis)
    {
      hide WellFormed, DependentsOk, Coherent;
      if s in user && user[s] == value {
        return true;
      }
      if !Assignable(c.syms[s].origType, value) {
        return false;
      }
      ghost var user0 := user;
      user := user[s := value];
      RecInvalidateIfHasPrompt(s, user0);
      return true;
    }

    // Symbol.unset_value
    method UnsetValue(s: Id)
      requires Valid() && s in c.syms
      modifies this`user, this`tri, this`vis
      ensures Valid() && user == old(user) - {s}
    {
      hide WellFormed, DependentsOk, Coherent;
      if s in user {
        ghost var user0 := user;
        user := user - {s};
        RecInvalidateIfHasPrompt(s, user0);
      }
    }

    // _rec_invalidate_if_has_prompt, after the user value has been changed
    method RecInvalidateIfHasPrompt(s: Id, ghost user0: map<Id, Tri>)
      requires WellFormed(c, rank) && DependentsOk(c, dependents) && Coherent(c, user0, tri, vis) && s in c.syms
      requires forall x | x != s :: UserOf(user, x) == UserOf(user0, x)
      modifies this`tri, this`vis
      ensures Valid()
    {
      hide WellFormed, Coherent, Invalidated;
      ghost var tri0, vis0 := tri, vis;
      if c.syms[s].prompts != [] {
        RecInvalidate(s);
        InvalidationKeepsCoherent(c, rank, dependents, s, user0, tri0, vis0, user, tri, vis);
      } else {
        PromptlessIgnoresUser(c, user0, user, tri, vis, s);
      }
    }

    /** Reading a value, at any time: it is the value that evaluation without caches gives. */
    method Read(s: Id) returns (v: Tri)
      requires Valid() && s in c.syms
      modifies this`tri, this`vis
      ensures Valid() && forall env | Solution(c, user, env) :: s in env && v == env[s]
    {
      hide Valid, Grown, Solution;
      ValidBelow(s);
      v := TriValue(s);
      forall env | Solution(c, user, env)
        ensures s in env && v == env[s]
      {
        ReadIsMeaning(env, s);
      }
    }

    /** The same for the visibility. */
    method ReadVisibility(s: Id) returns (v: Tri)
      requires Valid() && s in c.syms
      modifies this`tri, this`vis
      ensures Valid() && forall env | Solution(c, user, env) :: v == VisMeaning(c, c.syms[s], env)
    {
      hide Valid, Grown, Solution, VisMeaning;
      ValidBelow(s);
      v := Visibility(s);
      forall env | Solution(c, user, env)
        ensures v == VisMeaning(c, c.syms[s], env)
      {
        ReadIsMeaning(env, s);
      }
    }

    lemma ReadIsMeaning(env: map<Id, Tri>, s: Id)
      requires Valid() && Solution(c, user, env) && s in c.syms
      ensures s in env && (s in tri ==> tri[s] == env[s]) && (s in vis ==> vis[s] == VisMeaning(c, c.syms[s], env))
    {
      hide WellFormed, Coherent, DependentsOk, Solution, VisMeaning;
      CachedIsMeaning(c, rank, user, tri, vis, env, s);
      SolutionAt(c, user, env, s);
    }
  }

  predicate Assignable(type': SymType, value: Tri) {
    type' == Tristate || (type' == Bool && value != 1)
  }
}
