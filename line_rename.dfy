/** The line-filtered rename transformer (src/transformer/renametransformer.cc).
    Five matchers look for `oldName` as a variable, function or parameter declaration,
    as a reference and as a member access; each callback replaces the name at the
    node's location with `newName`, provided the location is on the target line (or
    the target line is -1), and records a label for the kind of node. The report lists
    the labels. */
module LineRename {
  import opened Wrappers
  import opened Text
  import opened Ast
  import opened Rewriting

  /** The kinds of node run() tells apart, in the order of its else-if chain. */
  datatype Category = VariableDeclaration | FunctionDeclaration | ParameterDeclaration | IdentifierReference | MemberAccess
  {
    /** The position of the kind's branch in the else-if chain. */
    function Rank(): (n: nat)
      ensures n < 5
    {
      match this
      case VariableDeclaration => 0
      case FunctionDeclaration => 1
      case ParameterDeclaration => 2
      case IdentifierReference => 3
      case MemberAccess => 4
    }

    /** The name start() binds this kind's matcher to, and run() looks it up by. */
    function Id(): string
    {
      match this
      case VariableDeclaration => "varDecl"
      case FunctionDeclaration => "funcDecl"
      case ParameterDeclaration => "parmDecl"
      case IdentifierReference => "declRef"
      case MemberAccess => "memberExpr"
    }

    /** The label run() inserts into the set for this kind of node. */
    function Label(): (s: string)
      ensures NoNewline(s)
    {
      match this
      case VariableDeclaration => "variable declaration"
      case FunctionDeclaration => "function declaration"
      case ParameterDeclaration => "parameter declaration"
      case IdentifierReference => "identifier reference"
      case MemberAccess => "member access"
    }
  }

  /** The five labels, the only strings the set can hold. */
  const Labels: set<string> := {VariableDeclaration.Label(), FunctionDeclaration.Label(), ParameterDeclaration.Label(),
                                IdentifierReference.Label(), MemberAccess.Label()}

  /** The location the branch for `category` would rewrite: present when the binding
      that branch tests ("varDecl", "funcDecl", "parmDecl", "declRef", "memberExpr") is
      bound to a node of its class. */
  function Binding(result: MatchResult, category: Category): Option<SourceLoc>
  {
    match category
    case VariableDeclaration =>
      if result.GetVarDecl("varDecl").Some? then Some(result.GetVarDecl("varDecl").value.loc) else None
    case FunctionDeclaration =>
      if result.GetFunctionDecl("funcDecl").Some? then Some(result.GetFunctionDecl("funcDecl").value.loc) else None
    case ParameterDeclaration =>
      if result.GetParmVarDecl("parmDecl").Some? then Some(result.GetParmVarDecl("parmDecl").value.loc) else None
    case IdentifierReference =>
      if result.GetDeclRefExpr("declRef").Some? then Some(result.GetDeclRefExpr("declRef").value.loc) else None
    case MemberAccess =>
      if result.GetMemberExpr("memberExpr").Some? then Some(result.GetMemberExpr("memberExpr").value.memberLoc) else None
  }

  /** A node one callback is about: where the name is written and its label. */
  datatype Occurrence = Occurrence(loc: SourceLoc, category: Category)

  /** The else-if chain of run(): a callback is about at most one node, the one of the
      first branch whose binding is present, and gets that branch's label. */
  function Classify(result: MatchResult): Option<Occurrence>
  {
    if result.GetVarDecl("varDecl").Some? then
      Some(Occurrence(result.GetVarDecl("varDecl").value.loc, VariableDeclaration))
    else if result.GetFunctionDecl("funcDecl").Some? then
      Some(Occurrence(result.GetFunctionDecl("funcDecl").value.loc, FunctionDeclaration))
    else if result.GetParmVarDecl("parmDecl").Some? then
      Some(Occurrence(result.GetParmVarDecl("parmDecl").value.loc, ParameterDeclaration))
    else if result.GetDeclRefExpr("declRef").Some? then
      Some(Occurrence(result.GetDeclRefExpr("declRef").value.loc, IdentifierReference))
    else if result.GetMemberExpr("memberExpr").Some? then
      Some(Occurrence(result.GetMemberExpr("memberExpr").value.memberLoc, MemberAccess))
    else
      None
  }

  /** Classify picks the first branch of the chain whose binding is present: a callback
      is about no node exactly when no binding is present, and otherwise about the
      bound node of its branch, with every earlier branch's binding absent. */
  lemma ClassifyFirstBinding(result: MatchResult)
    ensures Classify(result).None? <==> forall c: Category :: Binding(result, c).None?
    ensures Classify(result).Some? ==> Binding(result, Classify(result).value.category) == Some(Classify(result).value.loc)
    ensures Classify(result).Some? ==>
              forall c: Category :: c.Rank() < Classify(result).value.category.Rank() ==> Binding(result, c).None?
  {
    var r := Classify(result);
    if r.Some? {
      assert Binding(result, r.value.category).Some?;
    }
  }

  /** Whether the matcher start() builds for `category` matches `node`:
      varDecl(hasName(oldName)), functionDecl(hasName(oldName)),
      parmVarDecl(hasName(oldName)), declRefExpr(to(namedDecl(hasName(oldName)))) and
      memberExpr(member(hasName(oldName))). A parameter is a VarDecl as well. */
  predicate Matches(category: Category, oldName: string, node: Node)
  {
    match category
    case VariableDeclaration => node.DeclNode? && node.decl.IsVarDecl() && node.decl.name == oldName
    case FunctionDeclaration => node.DeclNode? && node.decl.kind == FunctionKind && node.decl.name == oldName
    case ParameterDeclaration => node.DeclNode? && node.decl.kind == ParmVarKind && node.decl.name == oldName
    case IdentifierReference => node.DeclRefNode? && node.ref.decl.name == oldName
    case MemberAccess => node.MemberNode? && node.member.member.name == oldName
  }

  /** The result a callback receives when the matcher for `category` matched `node`. */
  function Bind(category: Category, node: Node): MatchResult
  {
    MatchResult(map[category.Id() := node])
  }

  /** Where a node spells its name: getLocation() of a declaration or a reference,
      getMemberLoc() of a member access. */
  function NameLoc(node: Node): SourceLoc
  {
    match node
    case DeclNode(decl) => decl.loc
    case DeclRefNode(ref) => ref.loc
    case MemberNode(member) => member.memberLoc
    case CallNode(call) => call.beginLoc
  }

  /** The node the matcher for `category` reports, if it matches: its name's location
      and the matcher's kind. */
  function MatcherOccurrence(category: Category, oldName: string, node: Node): Option<Occurrence>
  {
    if Matches(category, oldName, node) then Some(Occurrence(NameLoc(node), category)) else None
  }

  /** run() on the result of a matcher classifies it as that matcher's kind, at the
      location of the matched node: the else-if chain of run() finds exactly the one
      name the matcher binds. */
  lemma CallbackClassified(category: Category, oldName: string, node: Node)
    requires Matches(category, oldName, node)
    ensures Classify(Bind(category, node)) == MatcherOccurrence(category, oldName, node)
  {
    var result := Bind(category, node);
    assert category.Id() in result.nodes && result.nodes[category.Id()] == node;
    match category
    case VariableDeclaration =>
      assert result.GetVarDecl("varDecl") == Some(node.decl);
    case FunctionDeclaration =>
      assert result.GetVarDecl("varDecl").None? && result.GetFunctionDecl("funcDecl") == Some(node.decl);
    case ParameterDeclaration =>
      assert result.GetVarDecl("varDecl").None? && result.GetFunctionDecl("funcDecl").None?;
      assert result.GetParmVarDecl("parmDecl") == Some(node.decl);
    case IdentifierReference =>
      assert result.GetVarDecl("varDecl").None? && result.GetFunctionDecl("funcDecl").None?;
      assert result.GetParmVarDecl("parmDecl").None? && result.GetDeclRefExpr("declRef") == Some(node.ref);
    case MemberAccess =>
      assert result.GetVarDecl("varDecl").None? && result.GetFunctionDecl("funcDecl").None?;
      assert result.GetParmVarDecl("parmDecl").None? && result.GetDeclRefExpr("declRef").None?;
      assert result.GetMemberExpr("memberExpr") == Some(node.member);
  }

  /** The matchers start() adds, in the order it adds them. */
  const Finder: seq<Category> := [VariableDeclaration, FunctionDeclaration, ParameterDeclaration, IdentifierReference, MemberAccess]

  /** The nodes the callbacks for one node are about, in the order the matchers were
      added. */
  function NodeOccurrences(finder: seq<Category>, oldName: string, node: Node): seq<Occurrence>
  {
    if finder == [] then []
    else NodeOccurrences(finder[..|finder| - 1], oldName, node) + MatcherOccurrence(finder[|finder| - 1], oldName, node).ToSeq()
  }

  /** The nodes the callbacks of matchAST are about, node by node in traversal order. */
  function TreeOccurrences(finder: seq<Category>, oldName: string, nodes: seq<Node>): seq<Occurrence>
  {
    if nodes == [] then []
    else TreeOccurrences(finder, oldName, nodes[..|nodes| - 1]) + NodeOccurrences(finder, oldName, nodes[|nodes| - 1])
  }

  /** A parameter with the old name is matched twice, by the variable matcher and by
      the parameter matcher, so it is reported as a variable declaration and then as a
      parameter declaration, at the same location. */
  lemma ParameterMatchedTwice(oldName: string, node: Node)
    requires node.DeclNode? && node.decl.kind == ParmVarKind && node.decl.name == oldName
    ensures NodeOccurrences(Finder, oldName, node)
              == [Occurrence(node.decl.loc, VariableDeclaration), Occurrence(node.decl.loc, ParameterDeclaration)]
  {
    NodeOccurrencesOfFinder(oldName, node);
  }

  /** Any other node is matched at most once, and exactly when it spells the old name
      as a variable, a function, a reference or a member. */
  lemma OtherNodesMatchedOnce(oldName: string, node: Node)
    requires !(node.DeclNode? && node.decl.kind == ParmVarKind)
    ensures |NodeOccurrences(Finder, oldName, node)| <= 1
    ensures |NodeOccurrences(Finder, oldName, node)| == 1 <==>
              (node.DeclNode? && (node.decl.kind == VarKind || node.decl.kind == FunctionKind) && node.decl.name == oldName)
              || (node.DeclRefNode? && node.ref.decl.name == oldName)
              || (node.MemberNode? && node.member.member.name == oldName)
  {
    NodeOccurrencesOfFinder(oldName, node);
  }

  lemma NodeOccurrencesOfFinder(oldName: string, node: Node)
    ensures NodeOccurrences(Finder, oldName, node)
              == MatcherOccurrence(VariableDeclaration, oldName, node).ToSeq()
                 + MatcherOccurrence(FunctionDeclaration, oldName, node).ToSeq()
                 + MatcherOccurrence(ParameterDeclaration, oldName, node).ToSeq()
                 + MatcherOccurrence(IdentifierReference, oldName, node).ToSeq()
                 + MatcherOccurrence(MemberAccess, oldName, node).ToSeq()
  {
    var v, f, p, i, m := VariableDeclaration, FunctionDeclaration, ParameterDeclaration, IdentifierReference, MemberAccess;
    assert NodeOccurrences([v], oldName, node) == [] + MatcherOccurrence(v, oldName, node).ToSeq() by {
      assert [v][..0] == [];
    }
    assert NodeOccurrences([v, f], oldName, node) == NodeOccurrences([v], oldName, node) + MatcherOccurrence(f, oldName, node).ToSeq() by {
      assert [v, f][..1] == [v];
    }
    assert NodeOccurrences([v, f, p], oldName, node) == NodeOccurrences([v, f], oldName, node) + MatcherOccurrence(p, oldName, node).ToSeq() by {
      assert [v, f, p][..2] == [v, f];
    }
    assert NodeOccurrences([v, f, p, i], oldName, node) == NodeOccurrences([v, f, p], oldName, node) + MatcherOccurrence(i, oldName, node).ToSeq() by {
      assert [v, f, p, i][..3] == [v, f, p];
    }
    assert NodeOccurrences(Finder, oldName, node) == NodeOccurrences([v, f, p, i], oldName, node) + MatcherOccurrence(m, oldName, node).ToSeq() by {
      assert Finder[..4] == [v, f, p, i];
    }
  }

  /** The category set after the labels of `occs` are inserted in order. */
  function Record(categories: seq<string>, occs: seq<Occurrence>): (r: seq<string>)
    requires Sorted(categories)
    ensures Sorted(r)
  {
    if occs == [] then categories
    else Insert(Record(categories, occs[..|occs| - 1]), occs[|occs| - 1].category.Label())
  }

  /** Recording keeps what the set had and adds exactly the labels of the occurrences. */
  lemma {:induction false} RecordElems(categories: seq<string>, occs: seq<Occurrence>)
    requires Sorted(categories)
    ensures Elems(Record(categories, occs)) == Elems(categories) + (set o | o in occs :: o.category.Label())
  {
    if occs != [] {
      var init, last := occs[..|occs| - 1], occs[|occs| - 1];
      assert occs == init + [last];
      RecordElems(categories, init);
    }
  }

  /** The report, line by line: a single sentence when nothing was renamed, naming the
      target line if there is one; otherwise a heading and one bullet per label in the
      set's order. */
  function ReportLines(oldName: string, newName: string, targetLine: int, categories: seq<string>): seq<string>
  {
    if categories == [] then
      if targetLine != -1 then ["No occurrences of '" + oldName + "' found" + " on line " + IntToString(targetLine) + "."]
      else ["No occurrences of '" + oldName + "' found" + "."]
    else
      ["Renamed '" + oldName + "' to '" + newName + "' in:"]
      + seq(|categories|, k requires 0 <= k < |categories| => "  - " + categories[k])
  }

  /** Recording two batches of labels one after the other records them all. */
  lemma {:induction false} RecordAppend(categories: seq<string>, a: seq<Occurrence>, b: seq<Occurrence>)
    requires Sorted(categories)
    ensures Record(categories, a + b) == Record(Record(categories, a), b)
    decreases |b|
  {
    if b == [] {
      assert a + b == a;
    } else {
      var init, last := b[..|b| - 1], b[|b| - 1];
      assert (a + b)[..|a + b| - 1] == a + init;
      RecordAppend(categories, a, init);
    }
  }

  /** Every line of the report is free of newlines when the two names are, so the
      report text splits back into its lines. */
  lemma ReportLinesNoNewline(oldName: string, newName: string, targetLine: int, categories: seq<string>)
    requires NoNewline(oldName) && NoNewline(newName) && Elems(categories) <= Labels
    ensures forall k :: 0 <= k < |ReportLines(oldName, newName, targetLine, categories)| ==>
              NoNewline(ReportLines(oldName, newName, targetLine, categories)[k])
  {
    var report := ReportLines(oldName, newName, targetLine, categories);
    forall k | 0 <= k < |report| ensures NoNewline(report[k]) {
      if categories != [] && k > 0 {
        var c := categories[k - 1];
        assert c in Elems(categories);
        assert NoNewline(c) by {
          assert c == VariableDeclaration.Label() || c == FunctionDeclaration.Label() || c == ParameterDeclaration.Label()
                 || c == IdentifierReference.Label() || c == MemberAccess.Label();
        }
        assert report[k] == "  - " + c;
      }
    }
  }

  class RenameTransformer {
    const rewriter: Rewriter
    const oldName: string
    const newName: string
    /** -1 renames on every line. */
    const targetLine: int
    /** The std::set<std::string> of labels recorded so far, in its iteration order. */
    var renamedIdentifiers: seq<string>

    ghost predicate Valid()
      reads this
    {
      Sorted(renamedIdentifiers) && Elems(renamedIdentifiers) <= Labels
    }

    constructor (rewriter: Rewriter, oldName: string, newName: string, targetLine: int)
      ensures Valid() && renamedIdentifiers == []
      ensures this.rewriter == rewriter && this.oldName == oldName && this.newName == newName
      ensures this.targetLine == targetLine
    {
      this.rewriter := rewriter;
      this.oldName := oldName;
      this.newName := newName;
      this.targetLine := targetLine;
      renamedIdentifiers := [];
    }

    /** shouldRename: with target line -1 every location qualifies; otherwise the
        location's spelling line must equal the target line converted to unsigned, so a
        positive target line selects exactly its own line and any other negative one
        selects no line of a real file. */
    function ShouldRename(loc: SourceLoc): (b: bool)
      ensures targetLine == -1 ==> b
      ensures 0 < targetLine < 0x1_0000_0000 ==> (b <==> loc.line == targetLine)
      ensures -0x8000_0000 <= targetLine < -1 && loc.line < 0x8000_0000 ==> !b
    {
      targetLine == -1 || loc.line == targetLine % 0x1_0000_0000
    }

    /** The occurrences shouldRename lets through, in order: exactly those on the
        target line, or all of them when the target line is -1. */
    function Accepted(occs: seq<Occurrence>): (r: seq<Occurrence>)
      ensures targetLine == -1 ==> r == occs
      ensures |r| <= |occs|
    {
      if occs == [] then []
      else
        var init, last := occs[..|occs| - 1], occs[|occs| - 1];
        assert occs == init + [last];
        Accepted(init) + (if ShouldRename(last.loc) then [last] else [])
    }

    /** The occurrences let through are exactly those shouldRename accepts. */
    lemma {:induction false} AcceptedMembers(occs: seq<Occurrence>)
      ensures forall o :: o in Accepted(occs) <==> o in occs && ShouldRename(o.loc)
      decreases |occs|
    {
      if occs != [] {
        var init, last := occs[..|occs| - 1], occs[|occs| - 1];
        assert occs == init + [last];
        AcceptedMembers(init);
      }
    }

    /** The edits for accepted occurrences, one each, in order. */
    function RenameEdits(occs: seq<Occurrence>): (r: seq<Edit>)
      ensures |r| == |occs|
      ensures forall k :: 0 <= k < |r| ==> r[k] == Replace(occs[k].loc, |oldName|, newName)
    {
      if occs == [] then []
      else RenameEdits(occs[..|occs| - 1]) + [Replace(occs[|occs| - 1].loc, |oldName|, newName)]
    }

    /** Every edit of a run replaces |oldName| characters by newName at a location
        shouldRename accepts. */
    lemma AcceptedRenames(occs: seq<Occurrence>)
      ensures forall k :: 0 <= k < |RenameEdits(Accepted(occs))| ==>
                var e := RenameEdits(Accepted(occs))[k];
                e.Replace? && e.length == |oldName| && e.text == newName && ShouldRename(e.loc)
    {
      AcceptedMembers(occs);
      var a := Accepted(occs);
      forall k | 0 <= k < |RenameEdits(a)| ensures ShouldRename(RenameEdits(a)[k].loc) {
        assert a[k] in a;
      }
    }

    /** Filtering commutes with concatenation. */
    lemma {:induction false} AcceptedAppend(a: seq<Occurrence>, b: seq<Occurrence>)
      ensures Accepted(a + b) == Accepted(a) + Accepted(b)
      decreases |b|
    {
      if b == [] {
        assert a + b == a;
      } else {
        var init, last := b[..|b| - 1], b[|b| - 1];
        assert (a + b)[..|a + b| - 1] == a + init;
        AcceptedAppend(a, init);
      }
    }

    lemma {:induction false} RenameEditsAppend(a: seq<Occurrence>, b: seq<Occurrence>)
      ensures RenameEdits(a + b) == RenameEdits(a) + RenameEdits(b)
      decreases |b|
    {
      if b == [] {
        assert a + b == a;
      } else {
        assert (a + b)[..|a + b| - 1] == a + b[..|b| - 1];
        RenameEditsAppend(a, b[..|b| - 1]);
      }
    }

    /** The edits for the occurrences so far and one more callback's occurrence, if any:
        one more replacement exactly when that occurrence is accepted. */
    lemma RenameEditsSnoc(before: seq<Occurrence>, o: Option<Occurrence>)
      ensures RenameEdits(Accepted(before + o.ToSeq())) == RenameEdits(Accepted(before))
                + (if o.Some? && ShouldRename(o.value.loc) then [Replace(o.value.loc, |oldName|, newName)] else [])
    {
      if o.None? {
        assert before + o.ToSeq() == before;
      } else {
        var all := before + [o.value];
        assert all[..|all| - 1] == before && all[|all| - 1] == o.value;
        var kept := Accepted(before);
        if ShouldRename(o.value.loc) {
          assert Accepted(all) == kept + [o.value];
          assert (kept + [o.value])[..|kept|] == kept;
        } else {
          assert Accepted(all) == kept + [];
          assert kept + [] == kept;
        }
      }
    }

    /** The labels for the occurrences so far and one more, if any: one more label
        exactly when that occurrence is accepted. */
    lemma RecordSnoc(categories: seq<string>, before: seq<Occurrence>, o: Option<Occurrence>)
      requires Sorted(categories)
      ensures Record(categories, Accepted(before + o.ToSeq()))
                == if o.Some? && ShouldRename(o.value.loc) then Insert(Record(categories, Accepted(before)), o.value.category.Label())
                   else Record(categories, Accepted(before))
    {
      AcceptedAppend(before, o.ToSeq());
      var added := Accepted(o.ToSeq());
      RecordAppend(categories, Accepted(before), added);
      if o.Some? {
        assert o.ToSeq() == [] + [o.value];
        assert [o.value][..0] == [];
      }
      if added == [] {
        assert Accepted(before) + added == Accepted(before);
      }
    }

    /** Two batches of occurrences give the edits and labels of the first, then those
        of the second. */
    lemma OccurrencesAppend(categories: seq<string>, a: seq<Occurrence>, b: seq<Occurrence>)
      requires Sorted(categories)
      ensures RenameEdits(Accepted(a + b)) == RenameEdits(Accepted(a)) + RenameEdits(Accepted(b))
      ensures Record(categories, Accepted(a + b)) == Record(Record(categories, Accepted(a)), Accepted(b))
    {
      AcceptedAppend(a, b);
      RenameEditsAppend(Accepted(a), Accepted(b));
      RecordAppend(categories, Accepted(a), Accepted(b));
    }

    /** One callback (run): at most one label and one edit. A callback without a
        binding, or whose location shouldRename rejects, changes neither the edits nor
        the labels; otherwise |oldName| characters at the location are replaced by
        newName and the branch's label is inserted into the set, where a label already
        present adds nothing. */
    method Run(result: MatchResult)
      requires Valid()
      modifies this, rewriter
      ensures Valid()
      ensures Classify(result).None? || !ShouldRename(Classify(result).value.loc) ==>
                renamedIdentifiers == old(renamedIdentifiers) && rewriter.edits == old(rewriter.edits)
      ensures Classify(result).Some? && ShouldRename(Classify(result).value.loc) ==>
                var o := Classify(result).value;
                rewriter.edits == old(rewriter.edits) + [Replace(o.loc, |oldName|, newName)]
                && renamedIdentifiers == Insert(old(renamedIdentifiers), o.category.Label())
    {
      var varDecl := result.GetVarDecl("varDecl");
      var funcDecl := result.GetFunctionDecl("funcDecl");
      var parmDecl := result.GetParmVarDecl("parmDecl");
      var declRef := result.GetDeclRefExpr("declRef");
      var memberExpr := result.GetMemberExpr("memberExpr");
      if varDecl.Some? {
        var location := varDecl.value.loc;
        if ShouldRename(location) {
          rewriter.ReplaceText(location, |oldName|, newName);
          renamedIdentifiers := Insert(renamedIdentifiers, VariableDeclaration.Label());
        }
      } else if funcDecl.Some? {
        var location := funcDecl.value.loc;
        if ShouldRename(location) {
          rewriter.ReplaceText(location, |oldName|, newName);
          renamedIdentifiers := Insert(renamedIdentifiers, FunctionDeclaration.Label());
        }
      } else if parmDecl.Some? {
        var location := parmDecl.value.loc;
        if ShouldRename(location) {
          rewriter.ReplaceText(location, |oldName|, newName);
          renamedIdentifiers := Insert(renamedIdentifiers, ParameterDeclaration.Label());
        }
      } else if declRef.Some? {
        var location := declRef.value.loc;
        if ShouldRename(location) {
          rewriter.ReplaceText(location, |oldName|, newName);
          renamedIdentifiers := Insert(renamedIdentifiers, IdentifierReference.Label());
        }
      } else if memberExpr.Some? {
        var location := memberExpr.value.memberLoc;
        if ShouldRename(location) {
          rewriter.ReplaceText(location, |oldName|, newName);
          renamedIdentifiers := Insert(renamedIdentifiers, MemberAccess.Label());
        }
      }
    }

    /** One turn of the loop over the matchers, on values: the effect of the first `j`
        matchers followed by the effect of matcher `j` is the effect of the first `j + 1`. */
    lemma NodeStep(finder: seq<Category>, node: Node, j: nat,
                   edits: seq<Edit>, labels: seq<string>, edits0: seq<Edit>, labels0: seq<string>,
                   edits1: seq<Edit>, labels1: seq<string>)
      requires j < |finder| && Sorted(labels)
      requires edits0 == edits + RenameEdits(Accepted(NodeOccurrences(finder[..j], oldName, node)))
      requires labels0 == Record(labels, Accepted(NodeOccurrences(finder[..j], oldName, node)))
      requires var o := MatcherOccurrence(finder[j], oldName, node);
               o.None? || !ShouldRename(o.value.loc) ==> labels1 == labels0 && edits1 == edits0
      requires var o := MatcherOccurrence(finder[j], oldName, node);
               o.Some? && ShouldRename(o.value.loc) ==>
                 edits1 == edits0 + [Replace(o.value.loc, |oldName|, newName)]
                 && labels1 == Insert(labels0, o.value.category.Label())
      ensures edits1 == edits + RenameEdits(Accepted(NodeOccurrences(finder[..j + 1], oldName, node)))
      ensures labels1 == Record(labels, Accepted(NodeOccurrences(finder[..j + 1], oldName, node)))
    {
      var before := NodeOccurrences(finder[..j], oldName, node);
      var o := MatcherOccurrence(finder[j], oldName, node);
      assert finder[..j + 1][..j] == finder[..j];
      assert NodeOccurrences(finder[..j + 1], oldName, node) == before + o.ToSeq();
      RenameEditsSnoc(before, o);
      RecordSnoc(labels, before, o);
      var p := RenameEdits(Accepted(before));
      if o.Some? && ShouldRename(o.value.loc) {
        ConcatAssociative(edits, p, [Replace(o.value.loc, |oldName|, newName)]);
      } else {
        assert p + [] == p;
      }
    }

    /** The effect of two batches of occurrences, one after the other, on values. */
    lemma EffectAppend(edits: seq<Edit>, labels: seq<string>, before: seq<Occurrence>, here: seq<Occurrence>,
                       edits0: seq<Edit>, labels0: seq<string>, edits1: seq<Edit>, labels1: seq<string>)
      requires Sorted(labels)
      requires edits0 == edits + RenameEdits(Accepted(before)) && labels0 == Record(labels, Accepted(before))
      requires edits1 == edits0 + RenameEdits(Accepted(here)) && labels1 == Record(labels0, Accepted(here))
      ensures edits1 == edits + RenameEdits(Accepted(before + here))
      ensures labels1 == Record(labels, Accepted(before + here))
    {
      OccurrencesAppend(labels, before, here);
      ConcatAssociative(edits, RenameEdits(Accepted(before)), RenameEdits(Accepted(here)));
    }

    /** One turn of the loop over the nodes, on values: the effect of the first `i`
        nodes followed by the effect of node `i` is the effect of the first `i + 1`. */
    lemma TreeStep(finder: seq<Category>, nodes: seq<Node>, i: nat,
                   edits: seq<Edit>, labels: seq<string>, edits0: seq<Edit>, labels0: seq<string>,
                   edits1: seq<Edit>, labels1: seq<string>)
      requires i < |nodes| && Sorted(labels)
      requires edits0 == edits + RenameEdits(Accepted(TreeOccurrences(finder, oldName, nodes[..i])))
      requires labels0 == Record(labels, Accepted(TreeOccurrences(finder, oldName, nodes[..i])))
      requires edits1 == edits0 + RenameEdits(Accepted(NodeOccurrences(finder, oldName, nodes[i])))
      requires labels1 == Record(labels0, Accepted(NodeOccurrences(finder, oldName, nodes[i])))
      ensures edits1 == edits + RenameEdits(Accepted(TreeOccurrences(finder, oldName, nodes[..i + 1])))
      ensures labels1 == Record(labels, Accepted(TreeOccurrences(finder, oldName, nodes[..i + 1])))
    {
      var before := TreeOccurrences(finder, oldName, nodes[..i]);
      var here := NodeOccurrences(finder, oldName, nodes[i]);
      assert nodes[..i + 1][..i] == nodes[..i];
      assert TreeOccurrences(finder, oldName, nodes[..i + 1]) == before + here;
      EffectAppend(edits, labels, before, here, edits0, labels0, edits1, labels1);
    }

    /** The finder offers `node` to the matcher for `category`: run is called when the
        matcher matches, with the node bound to the matcher's name. */
    method Dispatch(category: Category, node: Node)
      requires Valid()
      modifies this, rewriter
      ensures Valid()
      ensures var o := MatcherOccurrence(category, oldName, node);
              o.None? || !ShouldRename(o.value.loc) ==>
                renamedIdentifiers == old(renamedIdentifiers) && rewriter.edits == old(rewriter.edits)
      ensures var o := MatcherOccurrence(category, oldName, node);
              o.Some? && ShouldRename(o.value.loc) ==>
                rewriter.edits == old(rewriter.edits) + [Replace(o.value.loc, |oldName|, newName)]
                && renamedIdentifiers == Insert(old(renamedIdentifiers), o.value.category.Label())
    {
      if Matches(category, oldName, node) {
        CallbackClassified(category, oldName, node);
        Run(Bind(category, node));
      }
    }

    /** The part of matchAST that visits one node: each matcher is offered the node, in
        the order the matchers were added. */
    method MatchNode(finder: seq<Category>, node: Node)
      requires Valid()
      modifies this, rewriter
      ensures Valid()
      ensures rewriter.edits == old(rewriter.edits) + RenameEdits(Accepted(NodeOccurrences(finder, oldName, node)))
      ensures renamedIdentifiers == Record(old(renamedIdentifiers), Accepted(NodeOccurrences(finder, oldName, node)))
    {
      for j := 0 to |finder|
        invariant Valid()
        invariant rewriter.edits == old(rewriter.edits) + RenameEdits(Accepted(NodeOccurrences(finder[..j], oldName, node)))
        invariant renamedIdentifiers == Record(old(renamedIdentifiers), Accepted(NodeOccurrences(finder[..j], oldName, node)))
      {
        ghost var edits0, labels0 := rewriter.edits, renamedIdentifiers;
        Dispatch(finder[j], node);
        NodeStep(finder, node, j, old(rewriter.edits), old(renamedIdentifiers), edits0, labels0, rewriter.edits, renamedIdentifiers);
      }
      assert finder[..|finder|] == finder;
    }

    /** finder.matchAST: the nodes of the tree in traversal order. */
    method MatchAST(finder: seq<Category>, nodes: seq<Node>)
      requires Valid()
      modifies this, rewriter
      ensures Valid()
      ensures rewriter.edits == old(rewriter.edits) + RenameEdits(Accepted(TreeOccurrences(finder, oldName, nodes)))
      ensures renamedIdentifiers == Record(old(renamedIdentifiers), Accepted(TreeOccurrences(finder, oldName, nodes)))
    {
      for i := 0 to |nodes|
        invariant Valid()
        invariant rewriter.edits == old(rewriter.edits) + RenameEdits(Accepted(TreeOccurrences(finder, oldName, nodes[..i])))
        invariant renamedIdentifiers == Record(old(renamedIdentifiers), Accepted(TreeOccurrences(finder, oldName, nodes[..i])))
      {
        ghost var edits0, labels0 := rewriter.edits, renamedIdentifiers;
        MatchNode(finder, nodes[i]);
        TreeStep(finder, nodes, i, old(rewriter.edits), old(renamedIdentifiers), edits0, labels0, rewriter.edits, renamedIdentifiers);
      }
      assert nodes[..|nodes|] == nodes;
    }

    /** start(): the five matchers are added, then the finder calls run for each
        (node, matcher) pair that matches. All edits together are one replacement per
        accepted occurrence, in order, and the label set gains the labels of the
        accepted occurrences and nothing else. */
    method Start(nodes: seq<Node>)
      requires Valid()
      modifies this, rewriter
      ensures Valid()
      ensures rewriter.edits == old(rewriter.edits) + RenameEdits(Accepted(TreeOccurrences(Finder, oldName, nodes)))
      ensures renamedIdentifiers == Record(old(renamedIdentifiers), Accepted(TreeOccurrences(Finder, oldName, nodes)))
    {
      var finder: seq<Category> := [];
      finder := finder + [VariableDeclaration];
      finder := finder + [FunctionDeclaration];
      finder := finder + [ParameterDeclaration];
      finder := finder + [IdentifierReference];
      finder := finder + [MemberAccess];
      assert finder == Finder;
      MatchAST(finder, nodes);
    }

    /** print(): the report text, written line by line. */
    method Print() returns (out: string)
      requires Valid()
      ensures out == Unlines(ReportLines(oldName, newName, targetLine, renamedIdentifiers))
      ensures NoNewline(oldName) && NoNewline(newName) ==>
                Lines(out) == ReportLines(oldName, newName, targetLine, renamedIdentifiers)
    {
      var report := ReportLines(oldName, newName, targetLine, renamedIdentifiers);
      if |renamedIdentifiers| == 0 {
        var line := "No occurrences of '" + oldName + "' found";
        if targetLine != -1 {
          line := line + " on line " + IntToString(targetLine);
        }
        line := line + ".";
        assert report == [line];
        UnlinesPrefix(report, 0);
        out := line + "\n";
      } else {
        UnlinesPrefix(report, 0);
        out := report[0] + "\n";
        for i := 0 to |renamedIdentifiers|
          invariant out == Unlines(report[..i + 1])
        {
          var line := "  - " + renamedIdentifiers[i];
          assert report[i + 1] == line;
          UnlinesPrefix(report, i + 1);
          out := out + line + "\n";
        }
        assert report[..|renamedIdentifiers| + 1] == report;
      }
      if NoNewline(oldName) && NoNewline(newName) {
        ReportLinesNoNewline(oldName, newName, targetLine, renamedIdentifiers);
        LinesUnlines(report);
      }
    }
  }
}
