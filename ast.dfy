/** The syntax-tree nodes the transformers look at, as plain records. Each field is
    the answer to one query the transformers put to Clang: a declaration's name and
    kind, getLocation(), getSourceRange(), getBuiltinID(), isImplicit(), a call's
    getDirectCallee(), a reference's getDecl(), and, for any location, its spelling
    line and whether the SourceManager places it in a system header. */
module Ast {
  import opened Wrappers

  /** A source location with what the SourceManager says about it. */
  datatype SourceLoc = SourceLoc(offset: nat, line: nat, inSystemHeader: bool)

  datatype SourceRange = SourceRange(begin: SourceLoc, end: SourceLoc)

  /** The declaration classes the matchers distinguish. ParmVarDecl is a subclass of
      VarDecl in Clang. */
  datatype DeclKind = VarKind | ParmVarKind | FunctionKind | FieldKind | OtherKind

  /** A named declaration. `builtinId` is getBuiltinID() (0: not a builtin) and is
      only meaningful for functions. */
  datatype Decl = Decl(
    kind: DeclKind,
    name: string,
    loc: SourceLoc,
    range: SourceRange,
    builtinId: nat,
    isImplicit: bool)
  {
    /** dyn_cast<VarDecl> succeeds on variables and on parameters. */
    predicate IsVarDecl()
    {
      kind == VarKind || kind == ParmVarKind
    }

    /** isInSystemHeader(getSourceRange().getBegin()) */
    predicate InSystemHeader()
    {
      range.begin.inSystemHeader
    }
  }

  /** A call expression: its direct callee if it has one, getBeginLoc(), and the
      source range of the callee expression. */
  datatype CallExpr = CallExpr(directCallee: Option<Decl>, beginLoc: SourceLoc, callee: SourceRange)

  /** A DeclRefExpr: where it is written and the declaration it refers to. */
  datatype DeclRefExpr = DeclRefExpr(loc: SourceLoc, decl: Decl)

  /** A MemberExpr: getMemberLoc() and the member it names. */
  datatype MemberExpr = MemberExpr(memberLoc: SourceLoc, member: Decl)

  datatype Node =
    | DeclNode(decl: Decl)
    | CallNode(call: CallExpr)
    | DeclRefNode(ref: DeclRefExpr)
    | MemberNode(member: MemberExpr)

  /** The nodes a matcher bound, by their bind names. Each getter is getNodeAs<T>(id):
      the node bound to `id` if there is one and it is a T. */
  datatype MatchResult = MatchResult(nodes: map<string, Node>)
  {
    function GetVarDecl(id: string): Option<Decl>
    {
      if id in nodes && nodes[id].DeclNode? && nodes[id].decl.IsVarDecl() then Some(nodes[id].decl) else None
    }

    function GetParmVarDecl(id: string): Option<Decl>
    {
      if id in nodes && nodes[id].DeclNode? && nodes[id].decl.kind == ParmVarKind then Some(nodes[id].decl) else None
    }

    function GetFunctionDecl(id: string): Option<Decl>
    {
      if id in nodes && nodes[id].DeclNode? && nodes[id].decl.kind == FunctionKind then Some(nodes[id].decl) else None
    }

    function GetCallExpr(id: string): Option<CallExpr>
    {
      if id in nodes && nodes[id].CallNode? then Some(nodes[id].call) else None
    }

    function GetDeclRefExpr(id: string): Option<DeclRefExpr>
    {
      if id in nodes && nodes[id].DeclRefNode? then Some(nodes[id].ref) else None
    }

    function GetMemberExpr(id: string): Option<MemberExpr>
    {
      if id in nodes && nodes[id].MemberNode? then Some(nodes[id].member) else None
    }
  }
}
