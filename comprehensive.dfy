/** The comprehensive transformer (src/transformer/comprehensive_transformer.cc).
    Three matchers visit every call, every variable declaration and every reference to
    a variable. A call of a user-defined function gets "fn_" inserted at the call and,
    the first time the function is seen, at its definition; calls of builtins are
    recorded with their builtin ids; variables outside system headers are recorded.
    References are matched but left alone. The report lists the three sets.
    "Definition" is the source's word: the second "fn_" goes at the location of the
    declaration the call resolved to (getDirectCallee()->getLocation()), which for a
    function called through a prototype is that prototype, not the definition. */
module Comprehensive {
  import opened Wrappers
  import opened Text
  import opened Ast
  import opened Rewriting

  /** The text inserted in front of the name of a user-defined function. */
  const Prefix := "fn_"

  /** The three matchers of start(): callExpr(), varDecl() and
      declRefExpr(to(varDecl())), bound to "callExpr", "varDecl" and "varRef". */
  datatype Matcher = CallMatcher | VarDeclMatcher | VarRefMatcher
  {
    function Id(): string
    {
      match this
      case CallMatcher => "callExpr"
      case VarDeclMatcher => "varDecl"
      case VarRefMatcher => "varRef"
    }
  }

  /** The matchers start() adds, in the order it adds them. */
  const Finder: seq<Matcher> := [CallMatcher, VarDeclMatcher, VarRefMatcher]

  /** Whether matcher `m` matches `node`. The matchers have no name constraint: every
      call, every variable (parameters included) and every reference to a variable. */
  predicate Matches(m: Matcher, node: Node)
  {
    match m
    case CallMatcher => node.CallNode?
    case VarDeclMatcher => node.DeclNode? && node.decl.IsVarDecl()
    case VarRefMatcher => node.DeclRefNode? && node.ref.decl.IsVarDecl()
  }

  /** The result a callback receives when matcher `m` matched `node`. */
  function Bind(m: Matcher, node: Node): MatchResult
  {
    MatchResult(map[m.Id() := node])
  }

  // ---------------------------------------------------------------------------
  // The analysis state and the callbacks, as functions of that state
  // ---------------------------------------------------------------------------

  /** The fields of the transformer: the three std::set<std::string> (as sorted
      sequences, in their iteration order) and the std::map from builtin name to id. */
  datatype State = State(userFunctions: seq<string>, variables: seq<string>,
                         builtinFunctions: seq<string>, builtinIds: map<string, nat>)
  {
    /** The sets are sets, and the id map has an entry for exactly the recorded
        builtins (both are written together). */
    ghost predicate Valid()
    {
      Sorted(userFunctions) && Sorted(variables) && Sorted(builtinFunctions)
      && builtinIds.Keys == Elems(builtinFunctions)
    }
  }

  /** A freshly constructed transformer. */
  const Empty := State([], [], [], map[])

  /** What one or more callbacks do: the state they leave and the edits they ask of
      the rewriter, in order. */
  datatype Outcome = Outcome(state: State, edits: seq<Edit>)

  /** A call of a builtin: its direct callee reports a nonzero builtin id. */
  predicate IsBuiltinCall(call: CallExpr)
  {
    call.directCallee.Some? && call.directCallee.value.builtinId != 0
  }

  /** A call handleFunctionCall rewrites: a direct callee that is not a builtin, not
      implicit and not declared in a system header. */
  predicate IsUserCall(call: CallExpr)
  {
    call.directCallee.Some? && call.directCallee.value.builtinId == 0
    && !call.directCallee.value.isImplicit && !call.directCallee.value.InSystemHeader()
  }

  /** A variable handleVariableDecl records: outside system headers, with a name. */
  predicate IsTrackedVariable(decl: Decl)
  {
    !decl.InSystemHeader() && decl.name != ""
  }

  /** handleFunctionCall on a call: a builtin is recorded with its id and nothing is
      rewritten; implicit and system functions are left alone; a user function gets
      "fn_" at the call and, if its name is new, "fn_" at its definition as well. */
  function FunctionCall(s: State, call: CallExpr): (r: Outcome)
    requires s.Valid()
    ensures r.state.Valid()
  {
    match call.directCallee
    case None => Outcome(s, [])
    case Some(callee) =>
      if callee.builtinId != 0 then
        Outcome(s.(builtinFunctions := Insert(s.builtinFunctions, callee.name),
                   builtinIds := s.builtinIds[callee.name := callee.builtinId]), [])
      else if callee.isImplicit || callee.InSystemHeader() then Outcome(s, [])
      else if callee.name !in s.userFunctions then
        Outcome(s.(userFunctions := Insert(s.userFunctions, callee.name)),
                [InsertAfter(call.beginLoc, Prefix), InsertAfter(callee.loc, Prefix)])
      else Outcome(s, [InsertAfter(call.beginLoc, Prefix)])
  }

  /** Only a user call is rewritten: one insertion at the call, then one at the
      definition exactly when the function was not yet recorded; afterwards it is. */
  lemma FunctionCallRewrites(s: State, call: CallExpr)
    requires s.Valid()
    ensures var r := FunctionCall(s, call);
            (r.edits == [] <==> !IsUserCall(call))
            && (IsUserCall(call) ==>
                  var callee := call.directCallee.value;
                  r.edits[0] == InsertAfter(call.beginLoc, Prefix)
                  && (|r.edits| == 2 <==> callee.name !in Elems(s.userFunctions))
                  && (|r.edits| == 2 ==> r.edits[1] == InsertAfter(callee.loc, Prefix))
                  && |r.edits| <= 2
                  && Elems(r.state.userFunctions) == Elems(s.userFunctions) + {callee.name})
            && (!IsUserCall(call) ==> r.state.userFunctions == s.userFunctions)
  {
  }

  /** A builtin call records its name with its id and changes nothing else; any other
      call leaves the builtins alone. Variables are never touched. */
  lemma FunctionCallBuiltins(s: State, call: CallExpr)
    requires s.Valid()
    ensures var r := FunctionCall(s, call);
            r.state.variables == s.variables
            && (IsBuiltinCall(call) ==>
                  var callee := call.directCallee.value;
                  Elems(r.state.builtinFunctions) == Elems(s.builtinFunctions) + {callee.name}
                  && r.state.builtinIds[callee.name] == callee.builtinId
                  && (forall name :: name in s.builtinIds && name != callee.name ==> r.state.builtinIds[name] == s.builtinIds[name])
                  && r.state.userFunctions == s.userFunctions && r.edits == [])
            && (!IsBuiltinCall(call) ==> r.state.builtinFunctions == s.builtinFunctions && r.state.builtinIds == s.builtinIds)
  {
  }

  /** handleVariableDecl on a declaration: its name is recorded unless it lies in a
      system header or is empty. */
  function VariableDecl(s: State, decl: Decl): (r: State)
    requires s.Valid()
    ensures r.Valid()
    ensures r.userFunctions == s.userFunctions && r.builtinFunctions == s.builtinFunctions && r.builtinIds == s.builtinIds
    ensures Elems(r.variables) == Elems(s.variables) + (if IsTrackedVariable(decl) then {decl.name} else {})
  {
    if decl.InSystemHeader() || decl.name == "" then s
    else s.(variables := Insert(s.variables, decl.name))
  }

  /** run(): the else-if chain on the three bindings. A reference (handleVariableRef)
      changes nothing, and neither does a result with none of the bindings. */
  function Callback(s: State, result: MatchResult): (r: Outcome)
    requires s.Valid()
    ensures r.state.Valid()
  {
    if result.GetCallExpr("callExpr").Some? then FunctionCall(s, result.GetCallExpr("callExpr").value)
    else if result.GetVarDecl("varDecl").Some? then Outcome(VariableDecl(s, result.GetVarDecl("varDecl").value), [])
    else Outcome(s, [])
  }

  /** What matcher `m` does to `node`, written per matcher. */
  function MatcherOutcome(s: State, m: Matcher, node: Node): (r: Outcome)
    requires s.Valid()
    ensures r.state.Valid()
    ensures !Matches(m, node) ==> r == Outcome(s, [])
  {
    if !Matches(m, node) then Outcome(s, [])
    else match m
      case CallMatcher => FunctionCall(s, node.call)
      case VarDeclMatcher => Outcome(VariableDecl(s, node.decl), [])
      case VarRefMatcher => Outcome(s, [])
  }

  /** run() on the result of a matcher takes the branch of that matcher. */
  lemma CallbackClassified(s: State, m: Matcher, node: Node)
    requires s.Valid() && Matches(m, node)
    ensures Callback(s, Bind(m, node)) == MatcherOutcome(s, m, node)
  {
    var result := Bind(m, node);
    assert m.Id() in result.nodes && result.nodes[m.Id()] == node;
    match m
    case CallMatcher =>
      assert result.GetCallExpr("callExpr") == Some(node.call);
    case VarDeclMatcher =>
      assert result.GetCallExpr("callExpr").None? && result.GetVarDecl("varDecl") == Some(node.decl);
    case VarRefMatcher =>
      assert result.GetCallExpr("callExpr").None? && result.GetVarDecl("varDecl").None?;
  }

  /** The callbacks for one node, matcher by matcher in the order they were added. */
  function NodeOutcome(s: State, finder: seq<Matcher>, node: Node): (r: Outcome)
    requires s.Valid()
    ensures r.state.Valid()
  {
    if finder == [] then Outcome(s, [])
    else
      var before := NodeOutcome(s, finder[..|finder| - 1], node);
      var last := MatcherOutcome(before.state, finder[|finder| - 1], node);
      Outcome(last.state, before.edits + last.edits)
  }

  /** The callbacks of matchAST, node by node in traversal order. */
  function TreeOutcome(s: State, finder: seq<Matcher>, nodes: seq<Node>): (r: Outcome)
    requires s.Valid()
    ensures r.state.Valid()
  {
    if nodes == [] then Outcome(s, [])
    else
      var before := TreeOutcome(s, finder, nodes[..|nodes| - 1]);
      var last := NodeOutcome(before.state, finder, nodes[|nodes| - 1]);
      Outcome(last.state, before.edits + last.edits)
  }

  /** The one callback a node can cause: the three matchers match disjoint kinds of
      node, so a call is handled as a call, a variable as a declaration, and nothing
      else changes anything. */
  function NodeCallback(s: State, node: Node): (r: Outcome)
    requires s.Valid()
    ensures r.state.Valid()
  {
    match node
    case CallNode(call) => FunctionCall(s, call)
    case DeclNode(decl) => if decl.IsVarDecl() then Outcome(VariableDecl(s, decl), []) else Outcome(s, [])
    case _ => Outcome(s, [])
  }

  /** Each node causes at most one callback that does anything, whatever the state. */
  lemma OneCallbackPerNode(s: State, node: Node)
    requires s.Valid()
    ensures NodeOutcome(s, Finder, node) == NodeCallback(s, node)
  {
    var c, v, r := CallMatcher, VarDeclMatcher, VarRefMatcher;
    var o1 := NodeOutcome(s, [c], node);
    assert o1 == Outcome(MatcherOutcome(s, c, node).state, [] + MatcherOutcome(s, c, node).edits) by {
      assert [c][..0] == [] && [c][0] == c;
      assert NodeOutcome(s, [], node) == Outcome(s, []);
    }
    var o2 := NodeOutcome(s, [c, v], node);
    assert o2 == Outcome(MatcherOutcome(o1.state, v, node).state, o1.edits + MatcherOutcome(o1.state, v, node).edits) by {
      assert [c, v][..1] == [c];
    }
    assert NodeOutcome(s, Finder, node) == Outcome(MatcherOutcome(o2.state, r, node).state, o2.edits + MatcherOutcome(o2.state, r, node).edits) by {
      assert Finder[..2] == [c, v];
    }
    match node
    case CallNode(call) =>
      assert [] + MatcherOutcome(s, c, node).edits == FunctionCall(s, call).edits;
      assert o1.edits + [] == o1.edits;
      assert o2.edits + [] == o2.edits;
    case DeclNode(decl) =>
      assert o1 == Outcome(s, []);
      assert o2.edits == [];
    case DeclRefNode(ref) =>
      assert o2 == Outcome(s, []);
      assert [] + MatcherOutcome(s, r, node).edits == [];
    case MemberNode(member) =>
      assert o2 == Outcome(s, []);
  }

  /** The outcome of the nodes so far, then of one more node. */
  lemma TreeOutcomeSnoc(s: State, nodes: seq<Node>)
    requires s.Valid() && nodes != []
    ensures var before := TreeOutcome(s, Finder, nodes[..|nodes| - 1]);
            var last := NodeCallback(before.state, nodes[|nodes| - 1]);
            TreeOutcome(s, Finder, nodes) == Outcome(last.state, before.edits + last.edits)
  {
    OneCallbackPerNode(TreeOutcome(s, Finder, nodes[..|nodes| - 1]).state, nodes[|nodes| - 1]);
  }

  // ---------------------------------------------------------------------------
  // What a whole run does, against declarative descriptions of the tree
  // ---------------------------------------------------------------------------

  /** The names of the functions called by user calls among `nodes`. */
  function UserCallees(nodes: seq<Node>): set<string>
  {
    set n | n in nodes && n.CallNode? && IsUserCall(n.call) :: n.call.directCallee.value.name
  }

  /** The names of the functions called by builtin calls among `nodes`. */
  function BuiltinCallees(nodes: seq<Node>): set<string>
  {
    set n | n in nodes && n.CallNode? && IsBuiltinCall(n.call) :: n.call.directCallee.value.name
  }

  /** The names of the tracked variable declarations among `nodes`. */
  function TrackedVariables(nodes: seq<Node>): set<string>
  {
    set n | n in nodes && n.DeclNode? && n.decl.IsVarDecl() && IsTrackedVariable(n.decl) :: n.decl.name
  }

  /** The positions of the user calls among `nodes`. */
  function UserCallPositions(nodes: seq<Node>): set<int>
  {
    set k | 0 <= k < |nodes| && nodes[k].CallNode? && IsUserCall(nodes[k].call)
  }

  /** How many of `nodes` are user calls. */
  function UserCallCount(nodes: seq<Node>): (r: nat)
    ensures r == |UserCallPositions(nodes)|
    ensures r <= |nodes|
    ensures r == 0 <==> forall k :: 0 <= k < |nodes| ==> !(nodes[k].CallNode? && IsUserCall(nodes[k].call))
    ensures r == |nodes| <==> forall k :: 0 <= k < |nodes| ==> nodes[k].CallNode? && IsUserCall(nodes[k].call)
  {
    if nodes == [] then 0
    else
      var init, last := nodes[..|nodes| - 1], nodes[|nodes| - 1];
      var here := if last.CallNode? && IsUserCall(last.call) then {|nodes| - 1} else {};
      assert UserCallPositions(nodes) == UserCallPositions(init) + here;
      assert |nodes| - 1 !in UserCallPositions(init);
      UserCallCount(init) + if last.CallNode? && IsUserCall(last.call) then 1 else 0
  }

  /** No more functions are called by user calls than there are user calls. */
  lemma {:induction false} UserCalleesAtMostCalls(nodes: seq<Node>)
    ensures |UserCallees(nodes)| <= UserCallCount(nodes)
  {
    if nodes != [] {
      var init, n := nodes[..|nodes| - 1], nodes[|nodes| - 1];
      UserCalleesAtMostCalls(init);
      CalleesSnoc(nodes);
      if n.CallNode? && IsUserCall(n.call) {
        var x := n.call.directCallee.value.name;
        assert |UserCallees(init) + {x}| <= |UserCallees(init)| + 1;
      }
    }
  }

  /** One more node adds its own names to the three descriptions. */
  lemma CalleesSnoc(nodes: seq<Node>)
    requires nodes != []
    ensures var init, n := nodes[..|nodes| - 1], nodes[|nodes| - 1];
            UserCallees(nodes) == UserCallees(init) + (if n.CallNode? && IsUserCall(n.call) then {n.call.directCallee.value.name} else {})
            && BuiltinCallees(nodes) == BuiltinCallees(init) + (if n.CallNode? && IsBuiltinCall(n.call) then {n.call.directCallee.value.name} else {})
            && TrackedVariables(nodes) == TrackedVariables(init)
                 + (if n.DeclNode? && n.decl.IsVarDecl() && IsTrackedVariable(n.decl) then {n.decl.name} else {})
  {
    var init, n := nodes[..|nodes| - 1], nodes[|nodes| - 1];
    assert nodes == init + [n];
    assert forall x :: x in nodes <==> x in init || x == n;
  }

  /** The user functions recorded by a run are those recorded before plus the callee of
      every user call. */
  lemma {:induction false} UserFunctionsRecorded(s: State, nodes: seq<Node>)
    requires s.Valid()
    ensures Elems(TreeOutcome(s, Finder, nodes).state.userFunctions) == Elems(s.userFunctions) + UserCallees(nodes)
  {
    if nodes != [] {
      var init, n := nodes[..|nodes| - 1], nodes[|nodes| - 1];
      UserFunctionsRecorded(s, init);
      TreeOutcomeSnoc(s, nodes);
      CalleesSnoc(nodes);
      var before := TreeOutcome(s, Finder, init).state;
      match n
      case CallNode(call) => FunctionCallRewrites(before, call);
      case _ =>
    }
  }

  /** The builtins recorded by a run are those recorded before plus the callee of every
      builtin call, each with an id. */
  lemma {:induction false} BuiltinsRecorded(s: State, nodes: seq<Node>)
    requires s.Valid()
    ensures Elems(TreeOutcome(s, Finder, nodes).state.builtinFunctions) == Elems(s.builtinFunctions) + BuiltinCallees(nodes)
    ensures TreeOutcome(s, Finder, nodes).state.builtinIds.Keys == Elems(s.builtinFunctions) + BuiltinCallees(nodes)
  {
    if nodes != [] {
      var init, n := nodes[..|nodes| - 1], nodes[|nodes| - 1];
      BuiltinsRecorded(s, init);
      TreeOutcomeSnoc(s, nodes);
      CalleesSnoc(nodes);
      var before := TreeOutcome(s, Finder, init).state;
      match n
      case CallNode(call) => FunctionCallBuiltins(before, call);
      case _ =>
    }
  }

  /** The variables recorded by a run are those recorded before plus the name of every
      variable or parameter declared outside a system header with a name. */
  lemma {:induction false} VariablesRecorded(s: State, nodes: seq<Node>)
    requires s.Valid()
    ensures Elems(TreeOutcome(s, Finder, nodes).state.variables) == Elems(s.variables) + TrackedVariables(nodes)
  {
    if nodes != [] {
      var init, n := nodes[..|nodes| - 1], nodes[|nodes| - 1];
      VariablesRecorded(s, init);
      TreeOutcomeSnoc(s, nodes);
      CalleesSnoc(nodes);
      var before := TreeOutcome(s, Finder, init).state;
      match n
      case CallNode(call) => FunctionCallBuiltins(before, call);
      case _ =>
    }
  }

  /** The functions whose definition a run prefixes, in the order it prefixes them: the
      callee of each user call whose name was not yet recorded when the call was seen.
      The prefix goes at the callee's declaration location, as the module comment says. */
  function DefinitionNames(s: State, nodes: seq<Node>): seq<string>
    requires s.Valid()
  {
    if nodes == [] then []
    else
      var init, n := nodes[..|nodes| - 1], nodes[|nodes| - 1];
      var before := TreeOutcome(s, Finder, init).state;
      DefinitionNames(s, init)
      + if n.CallNode? && IsUserCall(n.call) && n.call.directCallee.value.name !in before.userFunctions
        then [n.call.directCallee.value.name] else []
  }

  /** Every user call gets one insertion, and every prefixed definition one more. */
  lemma {:induction false} DefinitionEditCount(s: State, nodes: seq<Node>)
    requires s.Valid()
    ensures |TreeOutcome(s, Finder, nodes).edits| == UserCallCount(nodes) + |DefinitionNames(s, nodes)|
  {
    if nodes != [] {
      var init, n := nodes[..|nodes| - 1], nodes[|nodes| - 1];
      DefinitionEditCount(s, init);
      TreeOutcomeSnoc(s, nodes);
      var before := TreeOutcome(s, Finder, init).state;
      match n
      case CallNode(call) => FunctionCallRewrites(before, call);
      case _ =>
    }
  }

  /** The prefixed definitions are those of the functions called by user calls that were
      not recorded before the run. */
  lemma {:induction false} DefinitionNamesNew(s: State, nodes: seq<Node>)
    requires s.Valid()
    ensures Elems(DefinitionNames(s, nodes)) == UserCallees(nodes) - Elems(s.userFunctions)
  {
    if nodes != [] {
      var init, n := nodes[..|nodes| - 1], nodes[|nodes| - 1];
      DefinitionNamesNew(s, init);
      UserFunctionsRecorded(s, init);
      CalleesSnoc(nodes);
      var d := DefinitionNames(s, init);
      var before := TreeOutcome(s, Finder, init).state;
      if n.CallNode? && IsUserCall(n.call) {
        var x := n.call.directCallee.value.name;
        assert UserCallees(nodes) == UserCallees(init) + {x};
        if x !in before.userFunctions {
          assert x !in Elems(s.userFunctions);
          assert DefinitionNames(s, nodes) == d + [x];
          assert Elems(d + [x]) == Elems(d) + {x};
        } else {
          assert x in Elems(before.userFunctions);
          assert DefinitionNames(s, nodes) == d + [];
          assert d + [] == d;
        }
      } else {
        assert DefinitionNames(s, nodes) == d + [];
        assert d + [] == d;
      }
    }
  }

  /** A run inserts at most two prefixes per user call: one at the call and at most one
      at the callee's definition. */
  lemma EditsAtMostTwicePerUserCall(s: State, nodes: seq<Node>)
    requires s.Valid()
    ensures |TreeOutcome(s, Finder, nodes).edits| <= 2 * UserCallCount(nodes)
  {
    var d := DefinitionNames(s, nodes);
    DefinitionEditCount(s, nodes);
    DefinitionsPrefixedOnce(s, nodes);
    DefinitionNamesNew(s, nodes);
    UserCalleesAtMostCalls(nodes);
    DistinctCardinality(d);
    assert Elems(d) <= UserCallees(nodes);
  }

  /** A sequence without repeats holds as many elements as the set it stands for. */
  lemma {:induction false} DistinctCardinality(d: seq<string>)
    requires forall i, j :: 0 <= i < j < |d| ==> d[i] != d[j]
    ensures |Elems(d)| == |d|
  {
    if d != [] {
      var init, x := d[..|d| - 1], d[|d| - 1];
      DistinctCardinality(init);
      assert d == init + [x];
      assert Elems(d) == Elems(init) + {x};
      assert x !in Elems(init) by {
        forall i | 0 <= i < |init| ensures init[i] != x {
          assert init[i] == d[i];
        }
      }
    }
  }

  /** A definition is prefixed at most once, however often its function is called. */
  lemma {:induction false} DefinitionsPrefixedOnce(s: State, nodes: seq<Node>)
    requires s.Valid()
    ensures var d := DefinitionNames(s, nodes);
            forall i, j :: 0 <= i < j < |d| ==> d[i] != d[j]
  {
    if nodes != [] {
      var init, n := nodes[..|nodes| - 1], nodes[|nodes| - 1];
      DefinitionsPrefixedOnce(s, init);
      DefinitionNamesNew(s, init);
      UserFunctionsRecorded(s, init);
      var d := DefinitionNames(s, init);
      if n.CallNode? && IsUserCall(n.call) && n.call.directCallee.value.name !in TreeOutcome(s, Finder, init).state.userFunctions {
        var x := n.call.directCallee.value.name;
        assert x !in Elems(d);
        assert DefinitionNames(s, nodes) == d + [x];
      }
    }
  }

  /** Whether `nodes[k]` is a user call of a function recorded neither before the run
      nor by an earlier call. */
  predicate FirstUserCall(s: State, nodes: seq<Node>, k: nat)
    requires k < |nodes|
  {
    nodes[k].CallNode? && IsUserCall(nodes[k].call)
    && nodes[k].call.directCallee.value.name !in Elems(s.userFunctions) + UserCallees(nodes[..k])
  }

  /** The first user call of a function not recorded before gets "fn_" inserted at the
      function's definition as well. */
  lemma {:induction false} FirstCallPrefixesDefinition(s: State, nodes: seq<Node>)
    requires s.Valid()
    ensures forall k :: 0 <= k < |nodes| && FirstUserCall(s, nodes, k) ==>
              InsertAfter(nodes[k].call.directCallee.value.loc, Prefix) in TreeOutcome(s, Finder, nodes).edits
  {
    if nodes != [] {
      var init := nodes[..|nodes| - 1];
      FirstCallPrefixesDefinition(s, init);
      TreeOutcomeSnoc(s, nodes);
      var edits := TreeOutcome(s, Finder, nodes).edits;
      var before := TreeOutcome(s, Finder, init);
      assert before.edits <= edits;
      forall k | 0 <= k < |nodes| && FirstUserCall(s, nodes, k)
        ensures InsertAfter(nodes[k].call.directCallee.value.loc, Prefix) in edits
      {
        if k == |nodes| - 1 {
          LastCallPrefixesDefinition(s, nodes);
        } else {
          assert nodes[..k] == init[..k] && nodes[k] == init[k];
          assert FirstUserCall(s, init, k);
        }
      }
    }
  }

  lemma LastCallPrefixesDefinition(s: State, nodes: seq<Node>)
    requires s.Valid() && nodes != [] && FirstUserCall(s, nodes, |nodes| - 1)
    ensures InsertAfter(nodes[|nodes| - 1].call.directCallee.value.loc, Prefix) in TreeOutcome(s, Finder, nodes).edits
  {
    var init, n := nodes[..|nodes| - 1], nodes[|nodes| - 1];
    TreeOutcomeSnoc(s, nodes);
    UserFunctionsRecorded(s, init);
    var before := TreeOutcome(s, Finder, init);
    FunctionCallRewrites(before.state, n.call);
    var last := FunctionCall(before.state, n.call);
    assert TreeOutcome(s, Finder, nodes).edits == before.edits + last.edits;
    assert last.edits[1] in TreeOutcome(s, Finder, nodes).edits;
  }

  /** All the transformer ever asks of the rewriter is to insert "fn_". */
  predicate OnlyPrefixInsertions(edits: seq<Edit>)
  {
    forall k :: 0 <= k < |edits| ==> edits[k].InsertAfter? && edits[k].text == Prefix
  }

  lemma {:induction false} EditsArePrefixInsertions(s: State, nodes: seq<Node>)
    requires s.Valid()
    ensures OnlyPrefixInsertions(TreeOutcome(s, Finder, nodes).edits)
  {
    if nodes != [] {
      var init := nodes[..|nodes| - 1];
      EditsArePrefixInsertions(s, init);
      TreeOutcomeSnoc(s, nodes);
    }
  }

  /** Every user call among the nodes has "fn_" inserted at its start. */
  lemma {:induction false} EveryUserCallPrefixed(s: State, nodes: seq<Node>)
    requires s.Valid()
    ensures forall k :: 0 <= k < |nodes| && nodes[k].CallNode? && IsUserCall(nodes[k].call) ==>
              InsertAfter(nodes[k].call.beginLoc, Prefix) in TreeOutcome(s, Finder, nodes).edits
  {
    if nodes != [] {
      var init, n := nodes[..|nodes| - 1], nodes[|nodes| - 1];
      EveryUserCallPrefixed(s, init);
      TreeOutcomeSnoc(s, nodes);
      var before := TreeOutcome(s, Finder, init);
      var last := NodeCallback(before.state, n);
      if n.CallNode? && IsUserCall(n.call) {
        FunctionCallRewrites(before.state, n.call);
        assert (before.edits + last.edits)[|before.edits|] == last.edits[0];
      }
      forall k | 0 <= k < |init| && nodes[k].CallNode? && IsUserCall(nodes[k].call)
        ensures InsertAfter(nodes[k].call.beginLoc, Prefix) in TreeOutcome(s, Finder, nodes).edits
      {
        assert nodes[k] == init[k];
      }
    }
  }

  // ---------------------------------------------------------------------------
  // The report
  // ---------------------------------------------------------------------------

  const Header := "=== COMPREHENSIVE ANALYSIS ==="
  const Footer := "=== END ANALYSIS ==="

  /** builtin_ids[fn]: the id recorded for `name`; operator[] would give 0 for a
      missing entry, which the state's invariant rules out. */
  function IdOf(ids: map<string, nat>, name: string): nat
  {
    if name in ids then ids[name] else 0
  }

  /** One line per user function, in the set's order. */
  function FunctionLines(names: seq<string>): (r: seq<string>)
    ensures |r| == |names|
  {
    if names == [] then [] else FunctionLines(names[..|names| - 1]) + ["  " + names[|names| - 1] + "()"]
  }

  /** One line per builtin, with its id, in the set's order. */
  function BuiltinLines(names: seq<string>, ids: map<string, nat>): (r: seq<string>)
    ensures |r| == |names|
  {
    if names == [] then []
    else
      var name := names[|names| - 1];
      BuiltinLines(names[..|names| - 1], ids) + ["  " + name + "() [ID: " + NatToString(IdOf(ids, name)) + "]"]
  }

  /** One line per variable, in the set's order. */
  function VariableLines(names: seq<string>): (r: seq<string>)
    ensures |r| == |names|
  {
    if names == [] then [] else VariableLines(names[..|names| - 1]) + ["  " + names[|names| - 1]]
  }

  /** Line k of each section names the k-th element of its set. */
  lemma {:induction false} SectionLinesAt(names: seq<string>, ids: map<string, nat>, k: nat)
    requires k < |names|
    ensures FunctionLines(names)[k] == "  " + names[k] + "()"
    ensures BuiltinLines(names, ids)[k] == "  " + names[k] + "() [ID: " + NatToString(IdOf(ids, names[k])) + "]"
    ensures VariableLines(names)[k] == "  " + names[k]
    decreases |names|
  {
    var init := names[..|names| - 1];
    if k < |init| {
      SectionLinesAt(init, ids, k);
    }
  }

  /** The lines of the first `i + 1` names: those of the first `i`, then one more. */
  lemma SectionLinesSnoc(names: seq<string>, ids: map<string, nat>, i: nat)
    requires i < |names|
    ensures FunctionLines(names[..i + 1]) == FunctionLines(names[..i]) + ["  " + names[i] + "()"]
    ensures BuiltinLines(names[..i + 1], ids)
            == BuiltinLines(names[..i], ids) + ["  " + names[i] + "() [ID: " + NatToString(IdOf(ids, names[i])) + "]"]
    ensures VariableLines(names[..i + 1]) == VariableLines(names[..i]) + ["  " + names[i]]
  {
    assert names[..i + 1][..i] == names[..i];
  }

  function UserHeading(n: nat): string { "User-defined functions (" + NatToString(n) + "):" }
  function BuiltinHeading(n: nat): string { "Built-in functions (" + NatToString(n) + "):" }
  function VariableHeading(n: nat): string { "Variables found (" + NatToString(n) + "):" }

  /** print(), line by line: a header, the three sections (each after an empty line,
      with its size in the heading), an empty line and the footer. */
  function ReportLines(s: State): seq<string>
  {
    [Header, "", UserHeading(|s.userFunctions|)] + FunctionLines(s.userFunctions)
    + ["", BuiltinHeading(|s.builtinFunctions|)] + BuiltinLines(s.builtinFunctions, s.builtinIds)
    + ["", VariableHeading(|s.variables|)] + VariableLines(s.variables)
    + ["", Footer]
  }

  /** The report has its header and footer at the ends and the three headings where
      they belong, each giving the size of its set. */
  lemma ReportHeadings(s: State)
    requires s.Valid()
    ensures var r := ReportLines(s);
            var u, b, v := |s.userFunctions|, |s.builtinFunctions|, |s.variables|;
            |r| == 9 + u + b + v
            && r[0] == Header && r[|r| - 1] == Footer
            && r[2] == UserHeading(|Elems(s.userFunctions)|)
            && r[4 + u] == BuiltinHeading(|Elems(s.builtinFunctions)|)
            && r[6 + u + b] == VariableHeading(|Elems(s.variables)|)
  {
    SortedCardinality(s.userFunctions);
    SortedCardinality(s.builtinFunctions);
    SortedCardinality(s.variables);
    var u, b := |s.userFunctions|, |s.builtinFunctions|;
    var x1 := [Header, "", UserHeading(u)] + FunctionLines(s.userFunctions);
    var x2 := x1 + ["", BuiltinHeading(b)] + BuiltinLines(s.builtinFunctions, s.builtinIds);
    var x3 := x2 + ["", VariableHeading(|s.variables|)] + VariableLines(s.variables);
    assert x1[0] == Header && x1[2] == UserHeading(u);
    assert x2[0] == Header && x2[2] == UserHeading(u) && x2[4 + u] == BuiltinHeading(b);
    assert x3[0] == Header && x3[2] == UserHeading(u) && x3[4 + u] == BuiltinHeading(b);
    assert x3[6 + u + b] == VariableHeading(|s.variables|);
    assert ReportLines(s) == x3 + ["", Footer];
  }

  /** Every user function is on its own line of the first section, in the set's order. */
  lemma ReportFunctionEntries(s: State)
    ensures forall k :: 0 <= k < |s.userFunctions| ==> ReportLines(s)[3 + k] == "  " + s.userFunctions[k] + "()"
  {
    var x1 := [Header, "", UserHeading(|s.userFunctions|)] + FunctionLines(s.userFunctions);
    var rest := ["", BuiltinHeading(|s.builtinFunctions|)] + BuiltinLines(s.builtinFunctions, s.builtinIds)
                + ["", VariableHeading(|s.variables|)] + VariableLines(s.variables) + ["", Footer];
    assert ReportLines(s) == x1 + rest;
    forall k | 0 <= k < |s.userFunctions| ensures ReportLines(s)[3 + k] == "  " + s.userFunctions[k] + "()" {
      SectionLinesAt(s.userFunctions, s.builtinIds, k);
      assert (x1 + rest)[3 + k] == x1[3 + k];
    }
  }

  /** Every builtin is on its own line of the second section, in the set's order, with
      the id recorded for it. */
  lemma ReportBuiltinEntries(s: State)
    requires s.Valid()
    ensures var u, b := |s.userFunctions|, s.builtinFunctions;
            forall k :: 0 <= k < |b| ==>
              ReportLines(s)[5 + u + k] == "  " + b[k] + "() [ID: " + NatToString(s.builtinIds[b[k]]) + "]"
  {
    var u, b := |s.userFunctions|, s.builtinFunctions;
    var x1 := [Header, "", UserHeading(u)] + FunctionLines(s.userFunctions) + ["", BuiltinHeading(|b|)];
    var bl := BuiltinLines(b, s.builtinIds);
    var rest := ["", VariableHeading(|s.variables|)] + VariableLines(s.variables) + ["", Footer];
    assert ReportLines(s) == x1 + bl + rest;
    forall k | 0 <= k < |b| ensures ReportLines(s)[5 + u + k] == "  " + b[k] + "() [ID: " + NatToString(s.builtinIds[b[k]]) + "]" {
      SectionLinesAt(b, s.builtinIds, k);
      assert b[k] in Elems(b);
      assert (x1 + bl + rest)[5 + u + k] == bl[k];
    }
  }

  /** Every variable is on its own line of the third section, in the set's order. */
  lemma ReportVariableEntries(s: State)
    ensures var u, b, v := |s.userFunctions|, |s.builtinFunctions|, s.variables;
            forall k :: 0 <= k < |v| ==> ReportLines(s)[7 + u + b + k] == "  " + v[k]
  {
    var u, b, v := |s.userFunctions|, |s.builtinFunctions|, s.variables;
    var x1 := [Header, "", UserHeading(u)] + FunctionLines(s.userFunctions) + ["", BuiltinHeading(b)]
              + BuiltinLines(s.builtinFunctions, s.builtinIds) + ["", VariableHeading(|v|)];
    var vl := VariableLines(v);
    assert ReportLines(s) == x1 + vl + ["", Footer];
    forall k | 0 <= k < |v| ensures ReportLines(s)[7 + u + b + k] == "  " + v[k] {
      SectionLinesAt(v, s.builtinIds, k);
      assert (x1 + vl + ["", Footer])[7 + u + b + k] == vl[k];
    }
  }

  lemma FunctionLinesNoNewline(names: seq<string>)
    requires NoNewlines(names)
    ensures NoNewlines(FunctionLines(names))
  {
    forall k | 0 <= k < |names| ensures NoNewline(FunctionLines(names)[k]) {
      SectionLinesAt(names, map[], k);
      NoNewlineConcat("  " + names[k], "()");
    }
  }

  lemma BuiltinLinesNoNewline(names: seq<string>, ids: map<string, nat>)
    requires NoNewlines(names)
    ensures NoNewlines(BuiltinLines(names, ids))
  {
    forall k | 0 <= k < |names| ensures NoNewline(BuiltinLines(names, ids)[k]) {
      SectionLinesAt(names, ids, k);
      NatToStringNoNewline(IdOf(ids, names[k]));
      var line := "  " + names[k] + "() [ID: " + NatToString(IdOf(ids, names[k])) + "]";
      NoNewlineConcat("  " + names[k], "() [ID: ");
      NoNewlineConcat("  " + names[k] + "() [ID: ", NatToString(IdOf(ids, names[k])));
      NoNewlineConcat("  " + names[k] + "() [ID: " + NatToString(IdOf(ids, names[k])), "]");
    }
  }

  lemma VariableLinesNoNewline(names: seq<string>)
    requires NoNewlines(names)
    ensures NoNewlines(VariableLines(names))
  {
    forall k | 0 <= k < |names| ensures NoNewline(VariableLines(names)[k]) {
      SectionLinesAt(names, map[], k);
      NoNewlineConcat("  ", names[k]);
    }
  }

  lemma UserHeadingNoNewline(n: nat)
    ensures NoNewlines([Header, "", UserHeading(n)])
  {
    NatToStringNoNewline(n);
    NoNewlineConcat("User-defined functions (", NatToString(n));
    NoNewlineConcat("User-defined functions (" + NatToString(n), "):");
  }

  lemma BuiltinHeadingNoNewline(n: nat)
    ensures NoNewlines(["", BuiltinHeading(n)])
  {
    NatToStringNoNewline(n);
    NoNewlineConcat("Built-in functions (", NatToString(n));
    NoNewlineConcat("Built-in functions (" + NatToString(n), "):");
  }

  lemma VariableHeadingNoNewline(n: nat)
    ensures NoNewlines(["", VariableHeading(n)])
  {
    NatToStringNoNewline(n);
    NoNewlineConcat("Variables found (", NatToString(n));
    NoNewlineConcat("Variables found (" + NatToString(n), "):");
  }

  /** With names free of newlines no line of the report holds one, so the text splits
      back into its lines. */
  lemma ReportLinesNoNewline(s: State)
    requires NoNewlines(s.userFunctions) && NoNewlines(s.builtinFunctions) && NoNewlines(s.variables)
    ensures NoNewlines(ReportLines(s))
  {
    UserHeadingNoNewline(|s.userFunctions|);
    BuiltinHeadingNoNewline(|s.builtinFunctions|);
    VariableHeadingNoNewline(|s.variables|);
    FunctionLinesNoNewline(s.userFunctions);
    BuiltinLinesNoNewline(s.builtinFunctions, s.builtinIds);
    VariableLinesNoNewline(s.variables);
    var a := [Header, "", UserHeading(|s.userFunctions|)] + FunctionLines(s.userFunctions);
    NoNewlinesAppend([Header, "", UserHeading(|s.userFunctions|)], FunctionLines(s.userFunctions));
    NoNewlinesAppend(a, ["", BuiltinHeading(|s.builtinFunctions|)]);
    var b := a + ["", BuiltinHeading(|s.builtinFunctions|)];
    NoNewlinesAppend(b, BuiltinLines(s.builtinFunctions, s.builtinIds));
    var c := b + BuiltinLines(s.builtinFunctions, s.builtinIds);
    NoNewlinesAppend(c, ["", VariableHeading(|s.variables|)]);
    var d := c + ["", VariableHeading(|s.variables|)];
    NoNewlinesAppend(d, VariableLines(s.variables));
    NoNewlinesAppend(d + VariableLines(s.variables), ["", Footer]);
  }

  /** The report text, piece by piece as print() writes it: the text of each part of
      ReportLines in turn. */
  lemma ReportText(s: State)
    ensures Unlines(ReportLines(s))
            == (Header + "\n") + ("\n" + UserHeading(|s.userFunctions|) + "\n") + Unlines(FunctionLines(s.userFunctions))
               + ("\n" + BuiltinHeading(|s.builtinFunctions|) + "\n") + Unlines(BuiltinLines(s.builtinFunctions, s.builtinIds))
               + ("\n" + VariableHeading(|s.variables|) + "\n") + Unlines(VariableLines(s.variables))
               + ("\n" + Footer + "\n")
  {
    var h, u := [Header], ["", UserHeading(|s.userFunctions|)];
    var fl := FunctionLines(s.userFunctions);
    var b := ["", BuiltinHeading(|s.builtinFunctions|)];
    var bl := BuiltinLines(s.builtinFunctions, s.builtinIds);
    var c := ["", VariableHeading(|s.variables|)];
    var vl := VariableLines(s.variables);
    var d := ["", Footer];
    assert ReportLines(s) == h + u + fl + b + bl + c + vl + d;
    UnlinesAppend(h, u);
    UnlinesAppend(h + u, fl);
    UnlinesAppend(h + u + fl, b);
    UnlinesAppend(h + u + fl + b, bl);
    UnlinesAppend(h + u + fl + b + bl, c);
    UnlinesAppend(h + u + fl + b + bl + c, vl);
    UnlinesAppend(h + u + fl + b + bl + c + vl, d);
    UnlinesSingle(Header);
    UnlinesBlankThen(UserHeading(|s.userFunctions|));
    UnlinesBlankThen(BuiltinHeading(|s.builtinFunctions|));
    UnlinesBlankThen(VariableHeading(|s.variables|));
    UnlinesBlankThen(Footer);
  }

  // ---------------------------------------------------------------------------
  // The transformer object
  // ---------------------------------------------------------------------------

  class ComprehensiveTransformer {
    const rewriter: Rewriter
    var userFunctions: seq<string>
    var variables: seq<string>
    var builtinFunctions: seq<string>
    var builtinIds: map<string, nat>

    function Value(): State
      reads this
    {
      State(userFunctions, variables, builtinFunctions, builtinIds)
    }

    ghost predicate Valid()
      reads this
    {
      Value().Valid()
    }

    constructor (rewriter: Rewriter)
      ensures Valid() && Value() == Empty && this.rewriter == rewriter
    {
      this.rewriter := rewriter;
      userFunctions := [];
      variables := [];
      builtinFunctions := [];
      builtinIds := map[];
    }

    /** handleFunctionCall(result), in place. */
    method HandleFunctionCall(result: MatchResult)
      requires Valid()
      modifies this, rewriter
      ensures Valid()
      ensures var o := if result.GetCallExpr("callExpr").Some? then FunctionCall(old(Value()), result.GetCallExpr("callExpr").value)
                       else Outcome(old(Value()), []);
              Value() == o.state && rewriter.edits == old(rewriter.edits) + o.edits
    {
      var callExpr := result.GetCallExpr("callExpr");
      if callExpr.Some? {
        var callee := callExpr.value.directCallee;
        if callee.Some? {
          var functionName := callee.value.name;
          var builtinId := callee.value.builtinId;
          var isImplicit := callee.value.isImplicit;
          var isInSystemHeader := callee.value.InSystemHeader();
          if builtinId != 0 {
            builtinFunctions := Insert(builtinFunctions, functionName);
            builtinIds := builtinIds[functionName := builtinId];
            return;
          }
          if isImplicit || isInSystemHeader {
            return;
          }
          rewriter.InsertTextAfter(callExpr.value.beginLoc, Prefix);
          if functionName !in userFunctions {
            rewriter.InsertTextAfter(callee.value.loc, Prefix);
            userFunctions := Insert(userFunctions, functionName);
          }
        }
      }
    }

    /** handleVariableDecl(result), in place. */
    method HandleVariableDecl(result: MatchResult)
      requires Valid()
      modifies this
      ensures Valid()
      ensures Value() == if result.GetVarDecl("varDecl").Some? then VariableDecl(old(Value()), result.GetVarDecl("varDecl").value)
                         else old(Value())
    {
      var varDecl := result.GetVarDecl("varDecl");
      if varDecl.Some? {
        if varDecl.value.InSystemHeader() {
          return;
        }
        var varName := varDecl.value.name;
        if varName == "" {
          return;
        }
        variables := Insert(variables, varName);
      }
    }

    /** handleVariableRef(result): looks the referenced variable up and does nothing
        with it. */
    method HandleVariableRef(result: MatchResult)
      ensures unchanged(this) && unchanged(rewriter)
    {
    }

    /** run(result): the else-if chain. */
    method Run(result: MatchResult)
      requires Valid()
      modifies this, rewriter
      ensures Valid()
      ensures Value() == Callback(old(Value()), result).state
      ensures rewriter.edits == old(rewriter.edits) + Callback(old(Value()), result).edits
    {
      if result.GetCallExpr("callExpr").Some? {
        HandleFunctionCall(result);
      } else if result.GetVarDecl("varDecl").Some? {
        HandleVariableDecl(result);
      } else if result.GetDeclRefExpr("varRef").Some? {
        HandleVariableRef(result);
      }
    }

    /** The finder offers `node` to matcher `m`: run is called when it matches. */
    method Dispatch(m: Matcher, node: Node)
      requires Valid()
      modifies this, rewriter
      ensures Valid()
      ensures Value() == MatcherOutcome(old(Value()), m, node).state
      ensures rewriter.edits == old(rewriter.edits) + MatcherOutcome(old(Value()), m, node).edits
    {
      if Matches(m, node) {
        CallbackClassified(Value(), m, node);
        Run(Bind(m, node));
      }
    }

    /** The part of matchAST that visits one node. */
    method MatchNode(finder: seq<Matcher>, node: Node)
      requires Valid()
      modifies this, rewriter
      ensures Valid()
      ensures Value() == NodeOutcome(old(Value()), finder, node).state
      ensures rewriter.edits == old(rewriter.edits) + NodeOutcome(old(Value()), finder, node).edits
    {
      for j := 0 to |finder|
        invariant Valid()
        invariant Value() == NodeOutcome(old(Value()), finder[..j], node).state
        invariant rewriter.edits == old(rewriter.edits) + NodeOutcome(old(Value()), finder[..j], node).edits
      {
        ghost var edits0 := rewriter.edits;
        Dispatch(finder[j], node);
        NodeStep(old(Value()), finder, node, j, old(rewriter.edits), edits0, rewriter.edits);
      }
      assert finder[..|finder|] == finder;
    }

    /** One turn of the loop over the matchers, on values. */
    static lemma NodeStep(s: State, finder: seq<Matcher>, node: Node, j: nat,
                          edits: seq<Edit>, edits0: seq<Edit>, edits1: seq<Edit>)
      requires s.Valid() && j < |finder|
      requires edits0 == edits + NodeOutcome(s, finder[..j], node).edits
      requires edits1 == edits0 + MatcherOutcome(NodeOutcome(s, finder[..j], node).state, finder[j], node).edits
      ensures NodeOutcome(s, finder[..j + 1], node).state == MatcherOutcome(NodeOutcome(s, finder[..j], node).state, finder[j], node).state
      ensures edits1 == edits + NodeOutcome(s, finder[..j + 1], node).edits
    {
      assert finder[..j + 1][..j] == finder[..j];
      var before := NodeOutcome(s, finder[..j], node);
      ConcatAssociative(edits, before.edits, MatcherOutcome(before.state, finder[j], node).edits);
    }

    /** finder.matchAST: the nodes in traversal order. */
    method MatchAST(finder: seq<Matcher>, nodes: seq<Node>)
      requires Valid()
      modifies this, rewriter
      ensures Valid()
      ensures Value() == TreeOutcome(old(Value()), finder, nodes).state
      ensures rewriter.edits == old(rewriter.edits) + TreeOutcome(old(Value()), finder, nodes).edits
    {
      for i := 0 to |nodes|
        invariant Valid()
        invariant Value() == TreeOutcome(old(Value()), finder, nodes[..i]).state
        invariant rewriter.edits == old(rewriter.edits) + TreeOutcome(old(Value()), finder, nodes[..i]).edits
      {
        ghost var edits0 := rewriter.edits;
        MatchNode(finder, nodes[i]);
        TreeStep(old(Value()), finder, nodes, i, old(rewriter.edits), edits0, rewriter.edits);
      }
      assert nodes[..|nodes|] == nodes;
    }

    /** One turn of the loop over the nodes, on values. */
    static lemma TreeStep(s: State, finder: seq<Matcher>, nodes: seq<Node>, i: nat,
                          edits: seq<Edit>, edits0: seq<Edit>, edits1: seq<Edit>)
      requires s.Valid() && i < |nodes|
      requires edits0 == edits + TreeOutcome(s, finder, nodes[..i]).edits
      requires edits1 == edits0 + NodeOutcome(TreeOutcome(s, finder, nodes[..i]).state, finder, nodes[i]).edits
      ensures TreeOutcome(s, finder, nodes[..i + 1]).state == NodeOutcome(TreeOutcome(s, finder, nodes[..i]).state, finder, nodes[i]).state
      ensures edits1 == edits + TreeOutcome(s, finder, nodes[..i + 1]).edits
    {
      assert nodes[..i + 1][..i] == nodes[..i];
      var before := TreeOutcome(s, finder, nodes[..i]);
      ConcatAssociative(edits, before.edits, NodeOutcome(before.state, finder, nodes[i]).edits);
    }

    /** start(): the three matchers are added, then the finder visits the tree. */
    method Start(nodes: seq<Node>)
      requires Valid()
      modifies this, rewriter
      ensures Valid()
      ensures Value() == TreeOutcome(old(Value()), Finder, nodes).state
      ensures rewriter.edits == old(rewriter.edits) + TreeOutcome(old(Value()), Finder, nodes).edits
    {
      var finder: seq<Matcher> := [];
      finder := finder + [CallMatcher];
      finder := finder + [VarDeclMatcher];
      finder := finder + [VarRefMatcher];
      assert finder == Finder;
      MatchAST(finder, nodes);
    }

    /** The loop over user_functions: one line per name, appended to `out0`. */
    method WriteFunctionLines(out0: string) returns (out: string)
      ensures out == out0 + Unlines(FunctionLines(userFunctions))
    {
      out := out0;
      for i := 0 to |userFunctions|
        invariant out == out0 + Unlines(FunctionLines(userFunctions[..i]))
      {
        var line := "  " + userFunctions[i] + "()";
        SectionLinesSnoc(userFunctions, builtinIds, i);
        UnlinesWrite(out0, FunctionLines(userFunctions[..i]), out, line);
        out := out + line + "\n";
      }
      assert userFunctions[..|userFunctions|] == userFunctions;
    }

    /** The loop over builtin_functions: one line per name with its id. */
    method WriteBuiltinLines(out0: string) returns (out: string)
      ensures out == out0 + Unlines(BuiltinLines(builtinFunctions, builtinIds))
    {
      out := out0;
      for i := 0 to |builtinFunctions|
        invariant out == out0 + Unlines(BuiltinLines(builtinFunctions[..i], builtinIds))
      {
        var name := builtinFunctions[i];
        var line := "  " + name + "() [ID: " + NatToString(IdOf(builtinIds, name)) + "]";
        SectionLinesSnoc(builtinFunctions, builtinIds, i);
        UnlinesWrite(out0, BuiltinLines(builtinFunctions[..i], builtinIds), out, line);
        out := out + line + "\n";
      }
      assert builtinFunctions[..|builtinFunctions|] == builtinFunctions;
    }

    /** The loop over variables: one line per name. */
    method WriteVariableLines(out0: string) returns (out: string)
      ensures out == out0 + Unlines(VariableLines(variables))
    {
      out := out0;
      for i := 0 to |variables|
        invariant out == out0 + Unlines(VariableLines(variables[..i]))
      {
        var line := "  " + variables[i];
        SectionLinesSnoc(variables, builtinIds, i);
        UnlinesWrite(out0, VariableLines(variables[..i]), out, line);
        out := out + line + "\n";
      }
      assert variables[..|variables|] == variables;
    }

    /** print(): the report text, written section by section. */
    method Print() returns (out: string)
      ensures out == Unlines(ReportLines(Value()))
      ensures NoNewlines(userFunctions) && NoNewlines(builtinFunctions) && NoNewlines(variables) ==>
                Lines(out) == ReportLines(Value())
    {
      out := Header + "\n";
      out := out + ("\n" + UserHeading(|userFunctions|) + "\n");
      out := WriteFunctionLines(out);
      out := out + ("\n" + BuiltinHeading(|builtinFunctions|) + "\n");
      out := WriteBuiltinLines(out);
      out := out + ("\n" + VariableHeading(|variables|) + "\n");
      out := WriteVariableLines(out);
      out := out + ("\n" + Footer + "\n");
      ReportText(Value());
      if NoNewlines(userFunctions) && NoNewlines(builtinFunctions) && NoNewlines(variables) {
        ReportLinesNoNewline(Value());
        LinesUnlines(ReportLines(Value()));
      }
    }
  }
}
