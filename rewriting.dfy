/** The source rewriter the transformers share, as the log of edits they ask of it,
    in the order they ask. The rewriter itself applies them to the buffer; that part
    is not modelled. */
module Rewriting {
  import opened Ast

  datatype Edit =
    | Replace(loc: SourceLoc, length: nat, text: string)   // ReplaceText(loc, length, text)
    | ReplaceRange(range: SourceRange, text: string)       // ReplaceText(range, text)
    | InsertAfter(loc: SourceLoc, text: string)            // InsertTextAfter(loc, text)

  class Rewriter {
    var edits: seq<Edit>

    constructor ()
      ensures edits == []
    {
      edits := [];
    }

    method ReplaceText(loc: SourceLoc, length: nat, text: string)
      modifies this
      ensures edits == old(edits) + [Replace(loc, length, text)]
    {
      edits := edits + [Replace(loc, length, text)];
    }

    method ReplaceTextRange(range: SourceRange, text: string)
      modifies this
      ensures edits == old(edits) + [ReplaceRange(range, text)]
    {
      edits := edits + [ReplaceRange(range, text)];
    }

    method InsertTextAfter(loc: SourceLoc, text: string)
      modifies this
      ensures edits == old(edits) + [InsertAfter(loc, text)]
    {
      edits := edits + [InsertAfter(loc, text)];
    }
  }
}
