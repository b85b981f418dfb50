/** The rewrite-and-cost gate of `genql/services/query/optimization_service.py`.
    Parsing, rendering, the rules and the estimator are the caller's. */
module QueryOptimizer {
  import opened Options
  import opened QueryGate

  /** A statement's syntax tree; nothing is known of it but its rendering. */
  datatype Tree = Tree(id: int)

  datatype RewriteRule = RewriteRule(name: string, apply: Tree -> Tree)

  /** `parse` is the qualified tree, if the statement can be qualified. */
  datatype Optimizer = Optimizer(
    parse: string -> Option<Tree>,
    render: Tree -> string,
    rules: seq<RewriteRule>,
    estimate: string -> Answer<real>,
    budget: real)

  datatype Optimization = Optimization(sql: string, rules: seq<string>, cost: real, within: bool,
      suggestion: Option<string>)

  /** The tree after the first `n` rules. */
  function TreeAfter(o: Optimizer, tree: Tree, n: nat): Tree
    requires n <= |o.rules|
  {
    if n == 0 then tree else o.rules[n - 1].apply(TreeAfter(o, tree, n - 1))
  }

  /** Rule `i` changed the statement's text. */
  predicate Changed(o: Optimizer, tree: Tree, i: nat)
    requires i < |o.rules|
  {
    o.render(TreeAfter(o, tree, i + 1)) != o.render(TreeAfter(o, tree, i))
  }

  /** Names of those of the first `n` rules that changed the text, in order. */
  function Applied(o: Optimizer, tree: Tree, n: nat): seq<string>
    requires n <= |o.rules|
  {
    if n == 0 then []
    else Applied(o, tree, n - 1) + (if Changed(o, tree, n - 1) then [o.rules[n - 1].name] else [])
  }

  function Rewritten(o: Optimizer, sql: string): (string, seq<string>) {
    match o.parse(sql)
    case None => (sql, [])
    case Some(tree) => (o.render(TreeAfter(o, tree, |o.rules|)), Applied(o, tree, |o.rules|))
  }

  /** `_rewrite`, with the loop that reassigns the tree and appends to `applied`. */
  method Rewrite(o: Optimizer, sql: string) returns (text: string, applied: seq<string>)
    ensures (text, applied) == Rewritten(o, sql)
  {
    var parsed := o.parse(sql);
    if parsed.None? { return sql, []; }
    var tree := parsed.value;
    applied := [];
    var i := 0;
    while i < |o.rules|
      invariant 0 <= i <= |o.rules|
      invariant tree == TreeAfter(o, parsed.value, i)
      invariant applied == Applied(o, parsed.value, i)
    {
      var before := o.render(tree);
      tree := o.rules[i].apply(tree);
      if o.render(tree) != before { applied := applied + [o.rules[i].name]; }
      i := i + 1;
    }
    text := o.render(tree);
  }

  function Suggestion(cost: real, budget: real): string {
    "this query's estimated cost is over the configured budget, so it was not run"
  }

  /** `_decompose`, given the model's rewriting of the statement. */
  function Decompose(o: Optimizer, candidate: string, sql: string, applied: seq<string>, cost: real): Optimization {
    var other := if candidate != sql then o.estimate(candidate) else Fail(ServiceFailed);
    var better := other.Ok? && other.value < cost;
    var bestSql, bestCost := if better then candidate else sql, if better then other.value else cost;
    var within := bestCost <= o.budget;
    Optimization(bestSql, applied, bestCost, within, if within then None else Some(Suggestion(bestCost, o.budget)))
  }

  /** `optimize`; `decomposed` is what the model would answer if it were asked. */
  function Optimize(o: Optimizer, sql: string, decomposed: Answer<string>): Answer<Optimization> {
    var (text, applied) := Rewritten(o, sql);
    match o.estimate(text)
    case Fail(_) => Fail(ServiceFailed)
    case Ok(cost) =>
      if cost <= o.budget then Ok(Optimization(text, applied, cost, true, None))
      else if decomposed.Fail? then Fail(Surfaced(decomposed.error))
      else Ok(Decompose(o, decomposed.value, text, applied, cost))
  }

  /** The verdict is about the statement it carries: its own estimate, never
      above that of the rewritten statement, within budget exactly when it says
      so, and with a suggestion exactly when not. */
  lemma VerdictIsHonest(o: Optimizer, sql: string, decomposed: Answer<string>)
    requires Optimize(o, sql, decomposed).Ok?
    ensures var r := Optimize(o, sql, decomposed).value;
            && o.estimate(r.sql) == Ok(r.cost)
            && o.estimate(Rewritten(o, sql).0).Ok? && r.cost <= o.estimate(Rewritten(o, sql).0).value
            && (r.within <==> r.cost <= o.budget)
            && (r.within <==> r.suggestion.None?)
            && (r.sql == Rewritten(o, sql).0 || (decomposed == Ok(r.sql)
                && r.cost < o.estimate(Rewritten(o, sql).0).value))
            && r.rules == Rewritten(o, sql).1
  {
  }

  /** The text is only ever changed by the rules that are reported. */
  lemma {:induction false} UnreportedMeansUnchanged(o: Optimizer, tree: Tree, n: nat)
    requires n <= |o.rules| && Applied(o, tree, n) == []
    ensures o.render(TreeAfter(o, tree, n)) == o.render(tree)
  {
    if n > 0 { UnreportedMeansUnchanged(o, tree, n - 1); }
  }

  /** The places of the reported rules. */
  function Places(o: Optimizer, tree: Tree, n: nat): seq<nat>
    requires n <= |o.rules|
  {
    if n == 0 then [] else Places(o, tree, n - 1) + (if Changed(o, tree, n - 1) then [n - 1] else [])
  }

  lemma {:induction false} PlacesAreChanges(o: Optimizer, tree: Tree, n: nat)
    requires n <= |o.rules|
    ensures forall i: nat :: i < n ==> (Changed(o, tree, i) <==> i in Places(o, tree, n))
    ensures forall i :: i in Places(o, tree, n) ==> i < n
  {
    if n > 0 {
      hide Changed, TreeAfter;
      PlacesAreChanges(o, tree, n - 1);
      var before, at := Places(o, tree, n - 1), Places(o, tree, n);
      assert forall i :: i in at <==> i in before || (Changed(o, tree, n - 1) && i == n - 1);
    }
  }

  /** `rules_applied` is the subsequence, in rule order, of exactly the rules
      that changed the rendered text (`PlacesAreChanges`). */
  lemma {:induction false} AppliedIsSubsequence(o: Optimizer, tree: Tree, n: nat)
    requires n <= |o.rules|
    ensures var at := Places(o, tree, n);
            && |at| == |Applied(o, tree, n)|
            && (forall k :: 0 <= k < |at| ==> at[k] < n && Applied(o, tree, n)[k] == o.rules[at[k]].name)
            && (forall j, k :: 0 <= j < k < |at| ==> at[j] < at[k])
  {
    if n > 0 {
      hide Changed, TreeAfter;
      AppliedIsSubsequence(o, tree, n - 1);
    }
  }

  // ------------------------------------------------------- what becomes of a statement

  /** The trees of a rewriting, from the parsed statement through one rule after another. */
  ghost predicate Rewriting(o: Optimizer, sql: string, trees: seq<Tree>) {
    && o.parse(sql).Some? && |trees| == |o.rules| + 1 && trees[0] == o.parse(sql).value
    && forall i :: 0 <= i < |o.rules| ==> trees[i + 1] == o.rules[i].apply(trees[i])
  }

  /** The names of exactly those rules, in order, that changed the text on that way. */
  ghost predicate Reported(o: Optimizer, trees: seq<Tree>, names: seq<string>)
    requires |trees| == |o.rules| + 1
  {
    exists at: seq<nat> ::
      && |at| == |names|
      && (forall k :: 0 <= k < |at| ==> at[k] < |o.rules| && names[k] == o.rules[at[k]].name)
      && (forall j, k :: 0 <= j < k < |at| ==> at[j] < at[k])
      && (forall i :: 0 <= i < |o.rules| ==> (i in at <==> o.render(trees[i + 1]) != o.render(trees[i])))
  }

  lemma TreesAre(o: Optimizer, sql: string, trees: seq<Tree>, n: nat)
    requires Rewriting(o, sql, trees) && n <= |o.rules|
    ensures trees[n] == TreeAfter(o, o.parse(sql).value, n)
  {
    if n > 0 { TreesAre(o, sql, trees, n - 1); }
  }

  lemma RewritingExists(o: Optimizer, sql: string) returns (trees: seq<Tree>)
    requires o.parse(sql).Some?
    ensures Rewriting(o, sql, trees)
  {
    var tree := o.parse(sql).value;
    trees := seq(|o.rules| + 1, i requires 0 <= i <= |o.rules| => TreeAfter(o, tree, i));
  }

  lemma RewrittenFollows(o: Optimizer, sql: string, trees: seq<Tree>)
    requires Rewriting(o, sql, trees)
    ensures Rewritten(o, sql).0 == o.render(trees[|o.rules|])
    ensures Reported(o, trees, Rewritten(o, sql).1)
  {
    var tree, n := o.parse(sql).value, |o.rules|;
    TreesAre(o, sql, trees, n);
    PlacesAreChanges(o, tree, n);
    AppliedIsSubsequence(o, tree, n);
    var at := Places(o, tree, n);
    forall i | 0 <= i < n ensures i in at <==> o.render(trees[i + 1]) != o.render(trees[i]) {
      TreesAre(o, sql, trees, i);
      TreesAre(o, sql, trees, i + 1);
      assert Changed(o, tree, i) <==> i in at;
    }
  }

  /** The outcome of the gate for a statement whose rewritten text is `text`: refused by
      the estimator; within the budget as it is; or put to the model, whose version is
      taken if and only if it prices lower. */
  ghost predicate Gated(o: Optimizer, text: string, decomposed: Answer<string>, r: Answer<Optimization>) {
    var plain := o.estimate(text);
    && (plain.Fail? ==> r == Fail(ServiceFailed))
    && (plain.Ok? && plain.value <= o.budget ==>
          r.Ok? && r.value.sql == text && r.value.cost == plain.value && r.value.within && r.value.suggestion.None?)
    && (plain.Ok? && plain.value > o.budget && decomposed.Fail? ==>
          r.Fail? && (r.error == Foreign <==> decomposed.error == Foreign))
    && (plain.Ok? && plain.value > o.budget && decomposed.Ok? ==>
          var other := o.estimate(decomposed.value);
          var lower := other.Ok? && other.value < plain.value;
          && r.Ok?
          && (lower ==> r.value.sql == decomposed.value && r.value.cost == other.value)
          && (!lower ==> r.value.sql == text && r.value.cost == plain.value)
          && (r.value.within <==> lower && other.value <= o.budget)
          && (r.value.suggestion.Some? <==> !r.value.within))
  }

  lemma GateFollows(o: Optimizer, sql: string, decomposed: Answer<string>)
    ensures var r := Optimize(o, sql, decomposed);
            Gated(o, Rewritten(o, sql).0, decomposed, r) && (r.Ok? ==> r.value.rules == Rewritten(o, sql).1)
  {
    hide Rewritten;
  }

  /** The text that is priced for `sql`, whose trees are `trees` if it can be qualified. */
  ghost function PricedText(o: Optimizer, sql: string, trees: seq<Tree>): string
    requires o.parse(sql).None? || Rewriting(o, sql, trees)
  {
    if o.parse(sql).None? then sql else o.render(trees[|o.rules|])
  }

  lemma PricedIsRewritten(o: Optimizer, sql: string, trees: seq<Tree>)
    requires o.parse(sql).None? || Rewriting(o, sql, trees)
    ensures Rewritten(o, sql).0 == PricedText(o, sql, trees)
  {
    hide Reported;
    if o.parse(sql).Some? { RewrittenFollows(o, sql, trees); }
  }

  /** What the gate returns, for every statement: if it can be qualified, the text that is
      priced is the rendering of its tree behind all rules, and the rules reported are
      those that changed the text on the way; if not, the text is the statement itself and
      no rule is reported. */
  lemma OptimizeExactly(o: Optimizer, sql: string, decomposed: Answer<string>, trees: seq<Tree>)
    requires o.parse(sql).None? || Rewriting(o, sql, trees)
    ensures var r := Optimize(o, sql, decomposed);
            && Gated(o, PricedText(o, sql, trees), decomposed, r)
            && (r.Ok? ==> if o.parse(sql).None? then r.value.rules == [] else Reported(o, trees, r.value.rules))
  {
    hide Reported, Gated, Optimize, TreeAfter, Applied;
    PricedIsRewritten(o, sql, trees);
    GateFollows(o, sql, decomposed);
    if o.parse(sql).Some? { RewrittenFollows(o, sql, trees); }
  }
}
