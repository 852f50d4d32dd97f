/** The typed rename transformer (src/transformer/rename_transformer.cc). Given a name,
    a new name and a rename type, it registers two matchers: calls to and declarations
    of a function with that name for type "function", declarations of and references
    to a variable with that name for type "variable", and none for any other type. Each
    callback rewrites the matched name and counts the rewrite; variables declared in a
    system header are left alone. */
module TypedRename {
  import opened Wrappers
  import opened Text
  import opened Ast
  import opened Rewriting

  /** The four matchers start() can register. */
  datatype MatcherKind = CallMatcher | FunctionDeclMatcher | VarDeclMatcher | VarRefMatcher
  {
    /** The name the matcher binds its node to. */
    function Id(): string
    {
      match this
      case CallMatcher => "call"
      case FunctionDeclMatcher => "funcDecl"
      case VarDeclMatcher => "varDecl"
      case VarRefMatcher => "varRef"
    }
  }

  /** Whether the matcher built for `fromName` matches `node`:
      callExpr(callee(functionDecl(hasName(fromName)))),
      functionDecl(hasName(fromName)), varDecl(hasName(fromName)) and
      declRefExpr(to(varDecl(hasName(fromName)))). A parameter is a VarDecl. */
  predicate Matches(m: MatcherKind, fromName: string, node: Node)
  {
    match m
    case CallMatcher =>
      node.CallNode? && node.call.directCallee.Some?
      && node.call.directCallee.value.kind == FunctionKind && node.call.directCallee.value.name == fromName
    case FunctionDeclMatcher =>
      node.DeclNode? && node.decl.kind == FunctionKind && node.decl.name == fromName
    case VarDeclMatcher =>
      node.DeclNode? && node.decl.IsVarDecl() && node.decl.name == fromName
    case VarRefMatcher =>
      node.DeclRefNode? && node.ref.decl.IsVarDecl() && node.ref.decl.name == fromName
  }

  /** The result a callback receives when matcher `m` matched `node`. */
  function Bind(m: MatcherKind, node: Node): MatchResult
  {
    MatchResult(map[m.Id() := node])
  }

  /** The matchers start() adds to the finder for a rename type, in the order it adds
      them. */
  function Finder(renameType: string): (r: seq<MatcherKind>)
    ensures renameType == "function" ==> r == [CallMatcher, FunctionDeclMatcher]
    ensures renameType == "variable" ==> r == [VarDeclMatcher, VarRefMatcher]
    ensures renameType != "function" && renameType != "variable" ==> r == []
  {
    if renameType == "function" then [CallMatcher, FunctionDeclMatcher]
    else if renameType == "variable" then [VarDeclMatcher, VarRefMatcher]
    else []
  }

  /** The matchers of `finder` that match `node`, in the order they were added: for
      each of them the finder calls run once, with the node bound to its name. */
  function NodeMatches(finder: seq<MatcherKind>, fromName: string, node: Node): (r: seq<MatcherKind>)
    ensures |r| <= |finder|
    ensures forall m :: m in r <==> m in finder && Matches(m, fromName, node)
  {
    if finder == [] then []
    else
      var m := finder[|finder| - 1];
      NodeMatches(finder[..|finder| - 1], fromName, node) + (if Matches(m, fromName, node) then [m] else [])
  }

  /** With two matchers registered, the callbacks for a node come from the first
      matcher, then from the second, each when it matches. */
  lemma NodeMatchesOfTwo(a: MatcherKind, b: MatcherKind, fromName: string, node: Node)
    ensures NodeMatches([a, b], fromName, node)
            == (if Matches(a, fromName, node) then [a] else []) + (if Matches(b, fromName, node) then [b] else [])
  {
    assert [a, b][..1] == [a] && [a][..0] == [];
  }

  /** The number of callbacks matchAST makes over the nodes of the tree. */
  function MatchCount(finder: seq<MatcherKind>, fromName: string, nodes: seq<Node>): nat
  {
    if nodes == [] then 0
    else MatchCount(finder, fromName, nodes[..|nodes| - 1]) + |NodeMatches(finder, fromName, nodes[|nodes| - 1])|
  }

  /** The report, line by line. */
  function ReportLines(renameCount: int, fromName: string, toName: string, renameType: string): seq<string>
  {
    ["=== RENAME REPORT ===",
     "Renamed " + IntToString(renameCount) + " instances of '" + fromName + "' to '" + toName
     + "' (type: " + renameType + ")",
     "=== END REPORT ==="]
  }

  /** No line of the report holds a newline when the names and the type hold none. */
  lemma ReportLinesNoNewline(renameCount: int, fromName: string, toName: string, renameType: string)
    requires NoNewline(fromName) && NoNewline(toName) && NoNewline(renameType)
    ensures forall k :: 0 <= k < 3 ==> NoNewline(ReportLines(renameCount, fromName, toName, renameType)[k])
  {
    var line := "Renamed " + IntToString(renameCount);
    NoNewlineConcat("Renamed ", IntToString(renameCount));
    NoNewlineConcat(line, " instances of '");
    line := line + " instances of '";
    NoNewlineConcat(line, fromName);
    line := line + fromName;
    NoNewlineConcat(line, "' to '");
    line := line + "' to '";
    NoNewlineConcat(line, toName);
    line := line + toName;
    NoNewlineConcat(line, "' (type: ");
    line := line + "' (type: ";
    NoNewlineConcat(line, renameType);
    line := line + renameType;
    NoNewlineConcat(line, ")");
    line := line + ")";
    assert ReportLines(renameCount, fromName, toName, renameType)[1] == line;
  }

  class RenameTransformer {
    const rewriter: Rewriter
    const fromName: string
    const toName: string
    const renameType: string
    var renameCount: int

    constructor (rewriter: Rewriter, fromName: string, toName: string, renameType: string)
      ensures this.rewriter == rewriter && this.fromName == fromName && this.toName == toName
      ensures this.renameType == renameType && renameCount == 0
    {
      this.rewriter := rewriter;
      this.fromName := fromName;
      this.toName := toName;
      this.renameType := renameType;
      renameCount := 0;
    }

    /** handleFunctionRename: a bound call is renamed over its callee's source range
        when its direct callee has the old name, and nothing happens for a call without
        a direct callee; otherwise a bound function declaration with the old name is
        renamed at its location. */
    function FunctionRenameEdit(result: MatchResult): (r: Option<Edit>)
      ensures r.Some? ==> r.value.text == toName
      ensures result.GetCallExpr("call").Some? ==>
                (r.Some? <==> var callee := result.GetCallExpr("call").value.directCallee;
                              callee.Some? && callee.value.name == fromName)
      ensures result.GetCallExpr("call").Some? && r.Some? ==>
                r.value == ReplaceRange(result.GetCallExpr("call").value.callee, toName)
      ensures result.GetCallExpr("call").None? ==>
                (r.Some? <==> var decl := result.GetFunctionDecl("funcDecl"); decl.Some? && decl.value.name == fromName)
      ensures result.GetCallExpr("call").None? && r.Some? ==>
                r.value == Replace(result.GetFunctionDecl("funcDecl").value.loc, |fromName|, toName)
    {
      match result.GetCallExpr("call")
      case Some(call) =>
        if call.directCallee.Some? && call.directCallee.value.name == fromName
        then Some(ReplaceRange(call.callee, toName)) else None
      case None =>
        match result.GetFunctionDecl("funcDecl")
        case Some(decl) => if decl.name == fromName then Some(Replace(decl.loc, |fromName|, toName)) else None
        case None => None
    }

    /** handleVariableRename: a bound variable declaration with the old name is renamed
        at its location, unless it begins in a system header. */
    function VariableRenameEdit(result: MatchResult): (r: Option<Edit>)
      ensures r.Some? <==> var decl := result.GetVarDecl("varDecl");
                           decl.Some? && !decl.value.InSystemHeader() && decl.value.name == fromName
      ensures r.Some? ==> r.value == Replace(result.GetVarDecl("varDecl").value.loc, |fromName|, toName)
    {
      match result.GetVarDecl("varDecl")
      case Some(decl) =>
        if decl.InSystemHeader() then None
        else if decl.name == fromName then Some(Replace(decl.loc, |fromName|, toName))
        else None
      case None => None
    }

    /** handleVariableRefRename: a bound reference to a variable with the old name is
        renamed at the reference, unless the variable begins in a system header; a
        reference to anything but a variable is left alone. */
    function VariableRefRenameEdit(result: MatchResult): (r: Option<Edit>)
      ensures r.Some? <==> var ref := result.GetDeclRefExpr("varRef");
                           ref.Some? && ref.value.decl.IsVarDecl() && !ref.value.decl.InSystemHeader()
                           && ref.value.decl.name == fromName
      ensures r.Some? ==> r.value == Replace(result.GetDeclRefExpr("varRef").value.loc, |fromName|, toName)
    {
      match result.GetDeclRefExpr("varRef")
      case Some(ref) =>
        if !ref.decl.IsVarDecl() then None
        else if ref.decl.InSystemHeader() then None
        else if ref.decl.name == fromName then Some(Replace(ref.loc, |fromName|, toName))
        else None
      case None => None
    }

    /** run: the handler for the first binding present among "call" or "funcDecl",
        "varDecl" and "varRef". */
    function RunEdit(result: MatchResult): Option<Edit>
    {
      if result.GetCallExpr("call").Some? || result.GetFunctionDecl("funcDecl").Some? then FunctionRenameEdit(result)
      else if result.GetVarDecl("varDecl").Some? then VariableRenameEdit(result)
      else if result.GetDeclRefExpr("varRef").Some? then VariableRefRenameEdit(result)
      else None
    }

    /** What matcher `m` and its callback ought to do with `node`, stated from the
        matcher alone: nothing for a node it does not match; otherwise rename a call over
        its callee's range, a function declaration at its location, and a variable
        declaration or a reference to a variable at its location unless the variable
        begins in a system header. */
    function MatcherEdit(m: MatcherKind, node: Node): (r: Option<Edit>)
      ensures r.Some? ==> r.value.text == toName
      ensures r.None? <==> !Matches(m, fromName, node)
                           || (m == VarDeclMatcher && node.decl.InSystemHeader())
                           || (m == VarRefMatcher && node.ref.decl.InSystemHeader())
    {
      if !Matches(m, fromName, node) then None
      else match m
        case CallMatcher => Some(ReplaceRange(node.call.callee, toName))
        case FunctionDeclMatcher => Some(Replace(node.decl.loc, |fromName|, toName))
        case VarDeclMatcher => if node.decl.InSystemHeader() then None else Some(Replace(node.decl.loc, |fromName|, toName))
        case VarRefMatcher => if node.ref.decl.InSystemHeader() then None else Some(Replace(node.ref.loc, |fromName|, toName))
    }

    /** run() on the result of a registered matcher does what the matcher calls for: the
        handlers' name checks always pass for a node the matcher accepted, and run()
        dispatches on the one name the matcher binds. */
    lemma CallbackEdit(m: MatcherKind, node: Node)
      requires Matches(m, fromName, node)
      ensures RunEdit(Bind(m, node)) == MatcherEdit(m, node)
    {
      var result := Bind(m, node);
      assert m.Id() in result.nodes && result.nodes[m.Id()] == node;
      match m
      case CallMatcher =>
        assert result.GetCallExpr("call") == Some(node.call);
      case FunctionDeclMatcher =>
        assert result.GetCallExpr("call").None? && result.GetFunctionDecl("funcDecl") == Some(node.decl);
      case VarDeclMatcher =>
        assert result.GetCallExpr("call").None? && result.GetFunctionDecl("funcDecl").None?;
        assert result.GetVarDecl("varDecl") == Some(node.decl);
      case VarRefMatcher =>
        assert result.GetCallExpr("call").None? && result.GetFunctionDecl("funcDecl").None?;
        assert result.GetVarDecl("varDecl").None? && result.GetDeclRefExpr("varRef") == Some(node.ref);
    }

    /** The edits of the callbacks for one node, in the order the matchers were added. */
    function NodeEdits(finder: seq<MatcherKind>, node: Node): seq<Edit>
    {
      if finder == [] then []
      else
        var m := finder[|finder| - 1];
        NodeEdits(finder[..|finder| - 1], node) + MatcherEdit(m, node).ToSeq()
    }

    /** The edits for one node under a finder of two matchers. */
    lemma NodeEditsOfTwo(a: MatcherKind, b: MatcherKind, node: Node)
      ensures NodeEdits([a, b], node) == MatcherEdit(a, node).ToSeq() + MatcherEdit(b, node).ToSeq()
    {
      assert [a, b][..1] == [a] && [a][..0] == [];
      assert NodeEdits([a], node) == [] + MatcherEdit(a, node).ToSeq();
    }

    /** The edits of matchAST over the nodes of the tree, in traversal order. */
    function TreeEdits(finder: seq<MatcherKind>, nodes: seq<Node>): seq<Edit>
    {
      if nodes == [] then []
      else TreeEdits(finder, nodes[..|nodes| - 1]) + NodeEdits(finder, nodes[|nodes| - 1])
    }

    /** The edits of start() over the nodes of a tree. */
    function Renames(nodes: seq<Node>): seq<Edit>
    {
      TreeEdits(Finder(renameType), nodes)
    }

    /** Every edit writes the new name. */
    lemma {:induction false} NodeEditsWriteNewName(finder: seq<MatcherKind>, node: Node)
      ensures forall e :: e in NodeEdits(finder, node) ==> e.text == toName
      decreases |finder|
    {
      if finder != [] {
        NodeEditsWriteNewName(finder[..|finder| - 1], node);
      }
    }

    lemma {:induction false} RenamesWriteNewName(nodes: seq<Node>)
      ensures forall e :: e in Renames(nodes) ==> e.text == toName
      decreases |nodes|
    {
      if nodes != [] {
        RenamesWriteNewName(nodes[..|nodes| - 1]);
        NodeEditsWriteNewName(Finder(renameType), nodes[|nodes| - 1]);
      }
    }

    /** A rename type other than "function" and "variable" registers no matcher, so
        nothing is renamed and nothing counted. */
    lemma {:induction false} UnknownTypeRenamesNothing(nodes: seq<Node>)
      requires renameType != "function" && renameType != "variable"
      ensures Renames(nodes) == []
      decreases |nodes|
    {
      if nodes != [] {
        UnknownTypeRenamesNothing(nodes[..|nodes| - 1]);
      }
    }

    /** With type "function" every callback renames: one edit per (node, matcher) pair
        that matched. */
    lemma {:induction false} FunctionRenamesEveryMatch(nodes: seq<Node>)
      requires renameType == "function"
      ensures |Renames(nodes)| == MatchCount(Finder(renameType), fromName, nodes)
      decreases |nodes|
    {
      if nodes != [] {
        FunctionRenamesEveryMatch(nodes[..|nodes| - 1]);
        var node := nodes[|nodes| - 1];
        var finder := Finder(renameType);
        assert finder[..1] == [CallMatcher] && finder[..1][..0] == [];
        NodeEditsOfTwo(CallMatcher, FunctionDeclMatcher, node);
        NodeMatchesOfTwo(CallMatcher, FunctionDeclMatcher, fromName, node);
      }
    }

    /** With type "variable" a node is renamed exactly when it is not a variable (or a
        reference to one) that begins in a system header. */
    lemma VariableRenamesOutsideSystemHeaders(node: Node)
      requires renameType == "variable"
      ensures |NodeEdits(Finder(renameType), node)| ==
                if Matches(VarDeclMatcher, fromName, node) && !node.decl.InSystemHeader() then 1
                else if Matches(VarRefMatcher, fromName, node) && !node.ref.decl.InSystemHeader() then 1
                else 0
    {
      var finder := Finder(renameType);
      assert finder[..1] == [VarDeclMatcher] && finder[..1][..0] == [];
      NodeEditsOfTwo(VarDeclMatcher, VarRefMatcher, node);
    }

    /** handleFunctionRename, with the count. */
    method HandleFunctionRename(result: MatchResult)
      modifies this, rewriter
      ensures rewriter.edits == old(rewriter.edits) + FunctionRenameEdit(result).ToSeq()
      ensures renameCount == old(renameCount) + |FunctionRenameEdit(result).ToSeq()|
    {
      var call := result.GetCallExpr("call");
      if call.Some? {
        var funcDecl := call.value.directCallee;
        if funcDecl.Some? {
          if funcDecl.value.name == fromName {
            rewriter.ReplaceTextRange(call.value.callee, toName);
            renameCount := renameCount + 1;
          }
        }
      } else {
        var funcDecl := result.GetFunctionDecl("funcDecl");
        if funcDecl.Some? {
          if funcDecl.value.name == fromName {
            rewriter.ReplaceText(funcDecl.value.loc, |fromName|, toName);
            renameCount := renameCount + 1;
          }
        }
      }
    }

    /** handleVariableRename, with the count. */
    method HandleVariableRename(result: MatchResult)
      modifies this, rewriter
      ensures rewriter.edits == old(rewriter.edits) + VariableRenameEdit(result).ToSeq()
      ensures renameCount == old(renameCount) + |VariableRenameEdit(result).ToSeq()|
    {
      var varDecl := result.GetVarDecl("varDecl");
      if varDecl.Some? {
        if varDecl.value.InSystemHeader() {
          return;
        }
        if varDecl.value.name == fromName {
          rewriter.ReplaceText(varDecl.value.loc, |fromName|, toName);
          renameCount := renameCount + 1;
        }
      }
    }

    /** handleVariableRefRename, with the count. */
    method HandleVariableRefRename(result: MatchResult)
      modifies this, rewriter
      ensures rewriter.edits == old(rewriter.edits) + VariableRefRenameEdit(result).ToSeq()
      ensures renameCount == old(renameCount) + |VariableRefRenameEdit(result).ToSeq()|
    {
      var declRef := result.GetDeclRefExpr("varRef");
      if declRef.Some? {
        var varDecl := declRef.value.decl;
        if varDecl.IsVarDecl() {
          if varDecl.InSystemHeader() {
            return;
          }
          if varDecl.name == fromName {
            rewriter.ReplaceText(declRef.value.loc, |fromName|, toName);
            renameCount := renameCount + 1;
          }
        }
      }
    }

    /** run: at most one edit, and the count goes up by the number of edits. */
    method Run(result: MatchResult)
      modifies this, rewriter
      ensures rewriter.edits == old(rewriter.edits) + RunEdit(result).ToSeq()
      ensures renameCount == old(renameCount) + |RunEdit(result).ToSeq()|
    {
      if result.GetCallExpr("call").Some? || result.GetFunctionDecl("funcDecl").Some? {
        HandleFunctionRename(result);
      } else if result.GetVarDecl("varDecl").Some? {
        HandleVariableRename(result);
      } else if result.GetDeclRefExpr("varRef").Some? {
        HandleVariableRefRename(result);
      }
    }

    /** One turn of the loop over the matchers, on values. */
    lemma NodeStep(finder: seq<MatcherKind>, node: Node, j: nat, edits: seq<Edit>, edits0: seq<Edit>, edits1: seq<Edit>)
      requires j < |finder|
      requires edits0 == edits + NodeEdits(finder[..j], node)
      requires edits1 == edits0 + MatcherEdit(finder[j], node).ToSeq()
      ensures edits1 == edits + NodeEdits(finder[..j + 1], node)
      ensures |NodeEdits(finder[..j + 1], node)| == |NodeEdits(finder[..j], node)| + |MatcherEdit(finder[j], node).ToSeq()|
    {
      assert finder[..j + 1][..j] == finder[..j];
      ConcatAssociative(edits, NodeEdits(finder[..j], node), MatcherEdit(finder[j], node).ToSeq());
    }

    /** One turn of the loop over the nodes, on values. */
    lemma TreeStep(finder: seq<MatcherKind>, nodes: seq<Node>, i: nat, edits: seq<Edit>, edits0: seq<Edit>, edits1: seq<Edit>)
      requires i < |nodes|
      requires edits0 == edits + TreeEdits(finder, nodes[..i])
      requires edits1 == edits0 + NodeEdits(finder, nodes[i])
      ensures edits1 == edits + TreeEdits(finder, nodes[..i + 1])
      ensures |TreeEdits(finder, nodes[..i + 1])| == |TreeEdits(finder, nodes[..i])| + |NodeEdits(finder, nodes[i])|
    {
      assert nodes[..i + 1][..i] == nodes[..i];
      ConcatAssociative(edits, TreeEdits(finder, nodes[..i]), NodeEdits(finder, nodes[i]));
    }

    /** The finder offers `node` to matcher `m`: run is called when the matcher
        matches, with the node bound to the matcher's name. */
    method Dispatch(m: MatcherKind, node: Node)
      modifies this, rewriter
      ensures rewriter.edits == old(rewriter.edits) + MatcherEdit(m, node).ToSeq()
      ensures renameCount == old(renameCount) + |MatcherEdit(m, node).ToSeq()|
    {
      if Matches(m, fromName, node) {
        CallbackEdit(m, node);
        Run(Bind(m, node));
      }
    }

    /** The part of matchAST that visits one node: each registered matcher is offered
        the node, in the order the matchers were added. */
    method MatchNode(finder: seq<MatcherKind>, node: Node)
      modifies this, rewriter
      ensures rewriter.edits == old(rewriter.edits) + NodeEdits(finder, node)
      ensures renameCount == old(renameCount) + |NodeEdits(finder, node)|
    {
      for j := 0 to |finder|
        invariant rewriter.edits == old(rewriter.edits) + NodeEdits(finder[..j], node)
        invariant renameCount == old(renameCount) + |NodeEdits(finder[..j], node)|
      {
        ghost var edits0 := rewriter.edits;
        Dispatch(finder[j], node);
        NodeStep(finder, node, j, old(rewriter.edits), edits0, rewriter.edits);
      }
      assert finder[..|finder|] == finder;
    }

    /** finder.matchAST: the nodes of the tree in traversal order. */
    method MatchAST(finder: seq<MatcherKind>, nodes: seq<Node>)
      modifies this, rewriter
      ensures rewriter.edits == old(rewriter.edits) + TreeEdits(finder, nodes)
      ensures renameCount == old(renameCount) + |TreeEdits(finder, nodes)|
    {
      for i := 0 to |nodes|
        invariant rewriter.edits == old(rewriter.edits) + TreeEdits(finder, nodes[..i])
        invariant renameCount == old(renameCount) + |TreeEdits(finder, nodes[..i])|
      {
        ghost var edits0 := rewriter.edits;
        MatchNode(finder, nodes[i]);
        TreeStep(finder, nodes, i, old(rewriter.edits), edits0, rewriter.edits);
      }
      assert nodes[..|nodes|] == nodes;
    }

    /** start(): register the matchers the rename type calls for, then let the finder
        call run for each (node, matcher) pair that matches, node by node in traversal
        order and, for one node, in the order the matchers were added. The edits are
        those of the callbacks in that order, and the count goes up by their number. */
    method Start(nodes: seq<Node>)
      modifies this, rewriter
      ensures rewriter.edits == old(rewriter.edits) + Renames(nodes)
      ensures renameCount == old(renameCount) + |Renames(nodes)|
    {
      var finder: seq<MatcherKind> := [];
      if renameType == "function" {
        finder := finder + [CallMatcher];
        finder := finder + [FunctionDeclMatcher];
      } else if renameType == "variable" {
        finder := finder + [VarDeclMatcher];
        finder := finder + [VarRefMatcher];
      }
      assert finder == Finder(renameType);
      MatchAST(finder, nodes);
    }

    /** print(): the three lines of the report. */
    method Print() returns (out: string)
      ensures out == Unlines(ReportLines(renameCount, fromName, toName, renameType))
      ensures NoNewline(fromName) && NoNewline(toName) && NoNewline(renameType) ==>
                Lines(out) == ReportLines(renameCount, fromName, toName, renameType)
    {
      var report := ReportLines(renameCount, fromName, toName, renameType);
      var summary := "Renamed " + IntToString(renameCount) + " instances of '" + fromName + "' to '" + toName
                     + "' (type: " + renameType + ")";
      assert report == ["=== RENAME REPORT ===", summary, "=== END REPORT ==="];
      UnlinesPrefix(report, 0);
      out := "=== RENAME REPORT ===" + "\n";
      assert out == Unlines(report[..1]);
      UnlinesPrefix(report, 1);
      out := out + summary + "\n";
      assert out == Unlines(report[..2]);
      UnlinesPrefix(report, 2);
      out := out + "=== END REPORT ===" + "\n";
      assert report[..3] == report;
      if NoNewline(fromName) && NoNewline(toName) && NoNewline(renameType) {
        ReportLinesNoNewline(renameCount, fromName, toName, renameType);
        LinesUnlines(report);
      }
    }
  }
}
