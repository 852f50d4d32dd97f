/** The rename command of the tool's entry point (src/main.cc):
      tool rename <old>[:<line>] <new> [tool options...]
    is parsed into the global command options, and the three rename words are taken
    out of argv before the rest goes to the option parser of the Clang tooling. */
module CommandLine {
  import opened Wrappers
  import opened Text

  /** The fields of a CommandOptions record, as one value. */
  datatype Options = Options(isRenameCommand: bool, oldName: string, newName: string, targetLine: int)

  /** The member initialisers of CommandOptions: no rename command, every line (-1). */
  const Defaults := Options(false, "", "", -1)

  /** The global options record, which parseRenameCommand fills in field by field. */
  class CommandOptions {
    var isRenameCommand: bool
    var oldName: string
    var newName: string
    var targetLine: int

    constructor ()
      ensures Value() == Defaults
    {
      isRenameCommand := false;
      oldName := "";
      newName := "";
      targetLine := -1;
    }

    function Value(): Options
      reads this
    {
      Options(isRenameCommand, oldName, newName, targetLine)
    }
  }

  // ---------------------------------------------------------------------------
  // The line number: strtol(text, &end, 10), then the checks on `end` and the value
  // ---------------------------------------------------------------------------

  /** isspace in the "C" locale: the characters strtol skips before the number. */
  predicate IsSpace(c: char)
  {
    c == ' ' || c == '\t' || c == '\n' || c == '\r' || c == 11 as char || c == 12 as char
  }

  function SkipSpaces(s: string, i: nat): (j: nat)
    requires i <= |s|
    ensures i <= j <= |s|
    ensures forall k :: i <= k < j ==> IsSpace(s[k])
    ensures j < |s| ==> !IsSpace(s[j])
    decreases |s| - i
  {
    if i < |s| && IsSpace(s[i]) then SkipSpaces(s, i + 1) else i
  }

  function SkipDigits(s: string, i: nat): (j: nat)
    requires i <= |s|
    ensures i <= j <= |s|
    ensures forall k :: i <= k < j ==> IsDigit(s[k])
    ensures j < |s| ==> !IsDigit(s[j])
    decreases |s| - i
  {
    if i < |s| && IsDigit(s[i]) then SkipDigits(s, i + 1) else i
  }

  /** Where strtol's digits start: after the leading white space and one optional sign. */
  function DigitsStart(s: string): (j: nat)
    ensures SkipSpaces(s, 0) <= j <= |s|
  {
    var i := SkipSpaces(s, 0);
    if i < |s| && (s[i] == '+' || s[i] == '-') then i + 1 else i
  }

  /** Whether the sign strtol reads is '-'. */
  predicate NegativeSign(s: string)
  {
    var i := SkipSpaces(s, 0);
    i < |s| && s[i] == '-'
  }

  /** strtol(s, &end, 10), overflow aside: leading white space, an optional sign, then
      decimal digits. Gives the value and the index `end` points at; with no digits,
      the value is 0 and `end` is the start of the text. Only white space, a sign and
      digits lie before `end`, and a digit is the last of them; `end` is where the
      digits after the white space and the sign run out. */
  function StrToL(s: string): (r: (int, nat))
    ensures r.1 <= |s|
    ensures r.1 > 0 ==> IsDigit(s[r.1 - 1])
    ensures 0 < r.1 < |s| ==> !IsDigit(s[r.1])
    ensures forall k :: 0 <= k < r.1 ==> IsSpace(s[k]) || s[k] == '+' || s[k] == '-' || IsDigit(s[k])
    ensures r.1 == 0 ==> r.0 == 0
    ensures r.1 == 0 <==> SkipDigits(s, DigitsStart(s)) == DigitsStart(s)
    ensures r.1 > 0 ==> r.1 == SkipDigits(s, DigitsStart(s))
    ensures r.1 > 0 ==> r.0 == if NegativeSign(s) then -(DigitsValue(s[DigitsStart(s)..r.1]) as int)
                                else DigitsValue(s[DigitsStart(s)..r.1])
  {
    var i := SkipSpaces(s, 0);
    var j := DigitsStart(s);
    var k := SkipDigits(s, j);
    if k == j then (0, 0)
    else
      assert forall p :: 0 <= p < k ==> IsSpace(s[p]) || s[p] == '+' || s[p] == '-' || IsDigit(s[p]) by {
        forall p | 0 <= p < k ensures IsSpace(s[p]) || s[p] == '+' || s[p] == '-' || IsDigit(s[p]) {
          if p < i {
          } else if p < j {
          } else {
          }
        }
      }
      assert AllDigits(s[j..k]) by {
        forall p | 0 <= p < k - j ensures IsDigit(s[j..k][p]) {
          assert s[j..k][p] == s[j + p];
        }
      }
      var v: int := DigitsValue(s[j..k]);
      (if NegativeSign(s) then -v else v, k)
  }

  /** strtol reads a whole digit run and stops at the first character after it: "12"
      is 12 with `end` at 2, "1 2" is 1 with `end` at 1, and "+-5" reads nothing. */
  lemma StrToLReadsWholeRun()
    ensures StrToL("12") == (12, 2)
    ensures StrToL("1 2") == (1, 1)
    ensures StrToL("+-5") == (0, 0)
  {
    assert DigitsValue("1") == 1 by { assert "1"[..0] == ""; }
    assert DigitsValue("12") == 12 by { assert "12"[..1] == "1"; }
    assert "12"[0..2] == "12" && "1 2"[0..1] == "1";
    assert SkipDigits("1 2", 0) == 1;
    assert SkipDigits("+-5", 1) == 1;
  }

  /** The test parseRenameCommand puts to the text after the colon: strtol must stop at
      the terminating NUL and read a positive value. */
  function ParseLineNumber(s: string): (r: Option<nat>)
    ensures r.Some? ==> r.value > 0 && r.value == StrToL(s).0
  {
    var (v, end) := StrToL(s);
    if (end == |s| || s[end] == '\0') && v > 0 then Some(v) else None
  }

  /** The shape of a line suffix the test accepts: white space before `i`, an optional
      '+' between `i` and `j`, the decimal digits `s[j..k]` with a positive value, then
      the end of the text or a NUL. */
  predicate LineForm(s: string, i: nat, j: nat, k: nat)
  {
    i <= j < k <= |s|
    && (forall p :: 0 <= p < i ==> IsSpace(s[p]))
    && (j == i || (j == i + 1 && s[i] == '+'))
    && AllDigits(s[j..k])
    && (k == |s| || s[k] == '\0')
    && DigitsValue(s[j..k]) > 0
  }

  /** A suffix is accepted exactly when it has that shape, and then its line is the
      value of its digits: " 7", "+7" and "007" all give 7. */
  lemma ParseLineNumberShape(s: string)
    ensures ParseLineNumber(s).Some? <==> exists i: nat, j: nat, k: nat :: LineForm(s, i, j, k)
    ensures forall i: nat, j: nat, k: nat :: LineForm(s, i, j, k) ==> ParseLineNumber(s) == Some(DigitsValue(s[j..k]))
  {
    if ParseLineNumber(s).Some? {
      AcceptedHasLineForm(s);
    }
    forall i': nat, j': nat, k': nat | LineForm(s, i', j', k') ensures ParseLineNumber(s) == Some(DigitsValue(s[j'..k'])) {
      LineFormUnique(s, i', j', k');
    }
  }

  /** An accepted suffix has the shape, with the bounds where strtol's scan stops. */
  lemma AcceptedHasLineForm(s: string)
    requires ParseLineNumber(s).Some?
    ensures LineForm(s, SkipSpaces(s, 0), DigitsStart(s), SkipDigits(s, DigitsStart(s)))
  {
    var i, j := SkipSpaces(s, 0), DigitsStart(s);
    var k := SkipDigits(s, j);
    var (v, end) := StrToL(s);
    assert end > 0 && v > 0 && (end == |s| || s[end] == '\0');
    assert end == k;
    assert AllDigits(s[j..k]) by {
      forall p | 0 <= p < k - j ensures IsDigit(s[j..k][p]) {
        assert s[j..k][p] == s[j + p];
      }
    }
    assert !NegativeSign(s);
    assert j > i ==> s[i] == '+';
  }

  /** The shape fixes its three bounds: they are where strtol's scan stops. */
  lemma LineFormUnique(s: string, i': nat, j': nat, k': nat)
    requires LineForm(s, i', j', k')
    ensures i' == SkipSpaces(s, 0)
    ensures j' == DigitsStart(s)
    ensures k' == SkipDigits(s, j')
  {
    assert IsDigit(s[j']) by { assert s[j'..k'][0] == s[j']; }
    assert !IsSpace(s[i']);
    FirstStop(s, 0, i', SkipSpaces(s, 0), IsSpace);
    assert forall p :: j' <= p < k' ==> IsDigit(s[p]) by {
      forall p | j' <= p < k' ensures IsDigit(s[p]) {
        assert s[j'..k'][p - j'] == s[p];
      }
    }
    assert k' < |s| ==> !IsDigit(s[k']);
    FirstStop(s, j', k', SkipDigits(s, j'), IsDigit);
  }

  /** Two scans from `from` over characters with property `p`, each stopping at the first
      character without it (or at the end), stop at the same place. */
  lemma FirstStop(s: string, from: nat, a: nat, b: nat, p: char -> bool)
    requires from <= a <= |s| && from <= b <= |s|
    requires forall q :: from <= q < a ==> p(s[q])
    requires a < |s| ==> !p(s[a])
    requires forall q :: from <= q < b ==> p(s[q])
    requires b < |s| ==> !p(s[b])
    ensures a == b
  {
  }

  /** Leading white space is read past: " 7" is line 7. */
  lemma SpacedLineAccepted()
    ensures ParseLineNumber(" 7") == Some(7)
  {
    assert DigitsValue("7") == 7 by { assert "7"[..0] == ""; }
    assert LineForm(" 7", 1, 1, 2) by { assert " 7"[1..2] == "7"; }
    ParseLineNumberShape(" 7");
  }

  /** A '+' sign is read past: "+7" is line 7. */
  lemma SignedLineAccepted()
    ensures ParseLineNumber("+7") == Some(7)
  {
    assert DigitsValue("7") == 7 by { assert "7"[..0] == ""; }
    assert LineForm("+7", 0, 1, 2) by { assert "+7"[1..2] == "7"; }
    ParseLineNumberShape("+7");
  }

  /** Leading zeros are read past: "007" is line 7. */
  lemma PaddedLineAccepted()
    ensures ParseLineNumber("007") == Some(7)
  {
    assert DigitsValue("0") == 0 by { assert "0"[..0] == ""; }
    assert DigitsValue("00") == 0 by { assert "00"[..1] == "0"; }
    assert DigitsValue("007") == 7 by { assert "007"[..2] == "00"; }
    assert "007"[0..3] == "007";
    assert AllDigits("007");
    assert LineForm("007", 0, 0, 3);
    ParseLineNumberShape("007");
  }

  /** An empty suffix ("name:") is rejected. */
  lemma EmptyLineRejected()
    ensures ParseLineNumber("") == None
  {
  }

  /** Digits worth zero ("0", "000") are rejected. */
  lemma ZeroLineRejected(s: string)
    requires |s| > 0 && AllDigits(s) && DigitsValue(s) == 0
    ensures ParseLineNumber(s) == None
  {
    assert !IsSpace(s[0]) && s[0] != '+' && s[0] != '-';
    assert SkipSpaces(s, 0) == 0;
    assert SkipDigits(s, 0) == |s|;
    assert s[0..|s|] == s;
  }

  /** A negative number ("-5", and "-0" as well) is rejected. */
  lemma NegativeLineRejected(digits: string)
    requires AllDigits(digits)
    ensures ParseLineNumber("-" + digits) == None
  {
    var s := "-" + digits;
    assert !IsSpace(s[0]);
    assert SkipSpaces(s, 0) == 0;
  }

  /** A line number printed in decimal is accepted and read back as itself. */
  lemma ParseLineNumberOfNatToString(n: nat)
    requires n > 0
    ensures ParseLineNumber(NatToString(n)) == Some(n)
  {
    var s := NatToString(n);
    assert !IsSpace(s[0]) && s[0] != '+' && s[0] != '-';
    assert SkipSpaces(s, 0) == 0;
    assert SkipDigits(s, 0) == |s|;
    assert s[0..|s|] == s;
    DigitsValueOfNatToString(n);
  }

  /** A suffix holding a colon, such as the rest of "name:1:2", is rejected. */
  lemma ColonInLineRejected(s: string)
    requires ':' in s && '\0' !in s
    ensures ParseLineNumber(s) == None
  {
    var (v, end) := StrToL(s);
    var p :| 0 <= p < |s| && s[p] == ':';
    assert !IsSpace(s[p]) && !IsDigit(s[p]);
  }

  /** A suffix whose last character is not a digit ("12abc", "7 "), or an empty one, is
      rejected. */
  lemma TrailingJunkRejected(s: string)
    requires (|s| == 0 || !IsDigit(s[|s| - 1])) && '\0' !in s
    ensures ParseLineNumber(s) == None
  {
    var (v, end) := StrToL(s);
    assert end == |s| ==> end == 0;
  }

  // ---------------------------------------------------------------------------
  // parseRenameCommand
  // ---------------------------------------------------------------------------

  /** argv[2] split at its first colon: the name before it and, if there is a colon,
      the line text after it. Joining the two parts gives the argument back. */
  function SplitAtColon(arg: string): (r: (string, Option<string>))
    ensures ':' !in r.0
    ensures r.1.None? <==> ':' !in arg
    ensures r.1.None? ==> r.0 == arg
    ensures r.1.Some? ==> arg == r.0 + ":" + r.1.value
  {
    match IndexOf(arg, ':')
    case None => (arg, None)
    case Some(p) =>
      assert arg == arg[..p] + ":" + arg[p + 1..];
      (arg[..p], Some(arg[p + 1..]))
  }

  predicate IsRenameCommand(argv: seq<string>)
  {
    |argv| >= 4 && argv[1] == "rename"
  }

  /** parseRenameCommand as a function of the options it starts from: its result and
      the options it leaves behind. Not a rename command: false, nothing written. A
      rename command: the flag and the old name are written first; a line suffix that
      does not parse then gives false with only those two written; otherwise the new
      name (and the parsed line, if any) are written and the result is true. */
  function ParseRename(o: Options, argv: seq<string>): (r: (bool, Options))
    ensures !IsRenameCommand(argv) ==> r == (false, o)
    ensures IsRenameCommand(argv) ==> r.1.isRenameCommand && r.1.oldName == SplitAtColon(argv[2]).0
    ensures r.0 <==> IsRenameCommand(argv) && (':' !in argv[2] || ParseLineNumber(SplitAtColon(argv[2]).1.value).Some?)
    ensures r.0 ==> r.1.newName == argv[3]
    ensures r.0 && ':' !in argv[2] ==> r.1.targetLine == o.targetLine
    ensures r.0 && ':' in argv[2] ==> Some(r.1.targetLine) == ParseLineNumber(SplitAtColon(argv[2]).1.value)
    ensures IsRenameCommand(argv) && !r.0 ==> r.1 == o.(isRenameCommand := true, oldName := r.1.oldName)
  {
    if !IsRenameCommand(argv) then (false, o)
    else
      var (name, lineText) := SplitAtColon(argv[2]);
      var named := o.(isRenameCommand := true, oldName := name);
      if lineText.None? then (true, named.(newName := argv[3]))
      else match ParseLineNumber(lineText.value)
        case None => (false, named)
        case Some(line) => (true, named.(targetLine := line, newName := argv[3]))
  }

  /** Starting from the defaults, a successful parse leaves either -1 (every line) or a
      positive line, and a positive line exactly when the old-name argument has a colon. */
  lemma ParsedTargetLine(argv: seq<string>)
    requires ParseRename(Defaults, argv).0
    ensures var t := ParseRename(Defaults, argv).1.targetLine; t == -1 || t > 0
    ensures ParseRename(Defaults, argv).1.targetLine > 0 <==> ':' in argv[2]
  {
  }

  /** Writing a rename command out and parsing it gives back what was written: the old
      name (with no colon in it), the line if one was given, and the new name. */
  lemma ParseRenameRoundTrip(program: string, name: string, line: nat, newName: string, rest: seq<string>)
    requires ':' !in name
    ensures var argv := [program, "rename", if line > 0 then name + ":" + NatToString(line) else name, newName] + rest;
      ParseRename(Defaults, argv) == (true, Options(true, name, newName, if line > 0 then line else -1))
  {
    var arg := if line > 0 then name + ":" + NatToString(line) else name;
    var argv := [program, "rename", arg, newName] + rest;
    assert argv[1] == "rename" && argv[2] == arg && argv[3] == newName;
    if line > 0 {
      assert arg[|name|] == ':' && arg[..|name|] == name;
      IndexOfFirst(arg, ':', |name|);
      assert arg[|name| + 1..] == NatToString(line);
      ParseLineNumberOfNatToString(line);
    }
  }

  /** parseRenameCommand, writing the global options in place. */
  method ParseRenameCommand(options: CommandOptions, argv: seq<string>) returns (ok: bool)
    modifies options
    ensures (ok, options.Value()) == ParseRename(old(options.Value()), argv)
  {
    ghost var expected := ParseRename(options.Value(), argv);
    if |argv| < 4 {
      return false;
    }
    var command := argv[1];
    if command != "rename" {
      return false;
    }
    options.isRenameCommand := true;

    var oldNameArg := argv[2];
    var colonPos := IndexOf(oldNameArg, ':');
    if colonPos.Some? {
      options.oldName := oldNameArg[..colonPos.value];
      var lineStr := oldNameArg[colonPos.value + 1..];
      assert SplitAtColon(oldNameArg) == (options.oldName, Some(lineStr));
      var (lineNum, end) := StrToL(lineStr);
      assert ParseLineNumber(lineStr) == if (end < |lineStr| && lineStr[end] != '\0') || lineNum <= 0 then None else Some(lineNum);
      if (end < |lineStr| && lineStr[end] != '\0') || lineNum <= 0 {
        // "Invalid line number" goes to the error stream
        assert expected == (false, options.Value());
        return false;
      }
      options.targetLine := lineNum;
    } else {
      options.oldName := oldNameArg;
      assert SplitAtColon(oldNameArg) == (oldNameArg, None);
    }
    options.newName := argv[3];
    assert expected == (true, options.Value());
    return true;
  }

  /** The argument list main passes on after a rename command: the program name, then
      everything after the three rename arguments, with the count reduced by three. */
  method CompactArguments(argv: seq<string>) returns (newArgv: seq<string>, argc: int)
    requires |argv| >= 4
    ensures argc == |newArgv| == |argv| - 3
    ensures newArgv[0] == argv[0]
    ensures forall k :: 1 <= k < argc ==> newArgv[k] == argv[k + 3]
  {
    newArgv := [argv[0]];
    for i := 4 to |argv|
      invariant newArgv == [argv[0]] + argv[4..i]
    {
      newArgv := newArgv + [argv[i]];
    }
    argc := |newArgv|;
  }

  /** The start of main: parse the rename command into the options and, when it is one,
      go on with the compacted argument list; otherwise with argv as it was. */
  method MainArguments(options: CommandOptions, argv: seq<string>) returns (argc: int, args: seq<string>)
    modifies options
    ensures (ParseRename(old(options.Value()), argv).1) == options.Value()
    ensures ParseRename(old(options.Value()), argv).0 ==> args == [argv[0]] + argv[4..] && argc == |argv| - 3
    ensures !ParseRename(old(options.Value()), argv).0 ==> args == argv && argc == |argv|
  {
    var ok := ParseRenameCommand(options, argv);
    argc, args := |argv|, argv;
    if ok {
      args, argc := CompactArguments(argv);
      assert args == [argv[0]] + argv[4..];
    }
  }
}
