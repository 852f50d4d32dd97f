/** Strings as the tool handles them: the ordering of std::string (which fixes the
    iteration order of a std::set<std::string>), std::string::find, decimal output of
    integers on a stream, and the lines of a report. */
module Text {
  import opened Wrappers

  // ---------------------------------------------------------------------------
  // Ordering and ordered sets
  // ---------------------------------------------------------------------------

  /** std::string's operator<: lexicographic on character codes, a proper prefix first. */
  predicate Less(a: string, b: string)
    decreases |a|
  {
    |b| > 0 && (|a| == 0 || a[0] < b[0] || (a[0] == b[0] && Less(a[1..], b[1..])))
  }

  lemma {:induction false} LessIrreflexive(a: string)
    ensures !Less(a, a)
    decreases |a|
  {
    if |a| > 0 {
      LessIrreflexive(a[1..]);
    }
  }

  lemma {:induction false} LessTransitive(a: string, b: string, c: string)
    requires Less(a, b) && Less(b, c)
    ensures Less(a, c)
    decreases |a|
  {
    if |a| > 0 && a[0] == b[0] && b[0] == c[0] {
      LessTransitive(a[1..], b[1..], c[1..]);
    }
  }

  lemma {:induction false} LessTotal(a: string, b: string)
    ensures a == b || Less(a, b) || Less(b, a)
    decreases |a|
  {
    if |a| > 0 && |b| > 0 && a[0] == b[0] {
      LessTotal(a[1..], b[1..]);
      if a[1..] == b[1..] {
        assert a == [a[0]] + a[1..] && b == [b[0]] + b[1..];
      }
    }
  }

  /** The iteration order of a std::set<std::string>: strictly increasing, so no element
      occurs twice. */
  ghost predicate Sorted(s: seq<string>)
  {
    forall i, j :: 0 <= i < j < |s| ==> Less(s[i], s[j])
  }

  /** The set a sorted sequence stands for. */
  function Elems(s: seq<string>): set<string>
  {
    set x | x in s
  }

  /** A sorted sequence holds as many elements as the set it stands for, so
      std::set::size() is the length of the sequence. */
  lemma {:induction false} SortedCardinality(s: seq<string>)
    requires Sorted(s)
    ensures |Elems(s)| == |s|
  {
    if s != [] {
      var rest := s[1..];
      assert Sorted(rest) by {
        forall i, j | 0 <= i < j < |rest| ensures Less(rest[i], rest[j]) {
          assert rest[i] == s[i + 1] && rest[j] == s[j + 1];
        }
      }
      SortedCardinality(rest);
      assert Elems(s) == {s[0]} + Elems(rest) by {
        assert s == [s[0]] + rest;
      }
      LessIrreflexive(s[0]);
      forall j | 0 <= j < |rest| ensures rest[j] != s[0] {
        assert Less(s[0], s[j + 1]);
      }
    }
  }

  lemma LessThanSorted(x: string, s: seq<string>)
    requires Sorted(s) && |s| > 0 && Less(x, s[0])
    ensures forall j :: 0 <= j < |s| ==> Less(x, s[j])
    ensures x !in s
  {
    forall j | 0 <= j < |s| ensures Less(x, s[j]) {
      if j > 0 {
        LessTransitive(x, s[0], s[j]);
      }
    }
    LessIrreflexive(x);
  }

  /** std::set<std::string>::insert on the set's iteration order: the result is still
      ordered, holds exactly one more element unless `x` was there already, and is
      unchanged when it was. */
  function Insert(s: seq<string>, x: string): (r: seq<string>)
    requires Sorted(s)
    ensures Sorted(r)
    ensures Elems(r) == Elems(s) + {x}
    ensures x in s ==> r == s
    ensures |r| == if x in s then |s| else |s| + 1
  {
    if s == [] then [x]
    else if x == s[0] then s
    else if Less(x, s[0]) then
      LessThanSorted(x, s);
      [x] + s
    else
      LessTotal(x, s[0]);
      SortedTail(s);
      var t := Insert(s[1..], x);
      AboveAll(s[0], t, s[1..], x);
      ConsSorted(s[0], t);
      [s[0]] + t
  }

  /** The tail of a sorted sequence is sorted and lies above its head. */
  lemma SortedTail(s: seq<string>)
    requires Sorted(s) && s != []
    ensures Sorted(s[1..])
    ensures forall k :: 0 <= k < |s[1..]| ==> Less(s[0], s[1..][k])
  {
    var rest := s[1..];
    forall i, j | 0 <= i < j < |rest| ensures Less(rest[i], rest[j]) {
      assert rest[i] == s[i + 1] && rest[j] == s[j + 1];
    }
  }

  /** A sequence whose elements are those of `rest` and `x`, all above `h`. */
  lemma AboveAll(h: string, t: seq<string>, rest: seq<string>, x: string)
    requires Elems(t) == Elems(rest) + {x} && Less(h, x)
    requires forall k :: 0 <= k < |rest| ==> Less(h, rest[k])
    ensures forall j :: 0 <= j < |t| ==> Less(h, t[j])
  {
    forall j | 0 <= j < |t| ensures Less(h, t[j]) {
      assert t[j] in Elems(t);
      if t[j] != x {
        var k :| 0 <= k < |rest| && rest[k] == t[j];
      }
    }
  }

  lemma ConsSorted(h: string, t: seq<string>)
    requires Sorted(t) && forall j :: 0 <= j < |t| ==> Less(h, t[j])
    ensures Sorted([h] + t)
  {
    var r := [h] + t;
    forall i, j | 0 <= i < j < |r| ensures Less(r[i], r[j]) {
      if i > 0 {
        assert r[i] == t[i - 1] && r[j] == t[j - 1];
      }
    }
  }

  // ---------------------------------------------------------------------------
  // Searching
  // ---------------------------------------------------------------------------

  /** std::string::find(c): the first position of `c`, or none (npos). */
  function IndexOf(s: string, c: char): (r: Option<nat>)
    ensures r.Some? ==> r.value < |s| && s[r.value] == c && c !in s[..r.value]
    ensures r.None? ==> c !in s
  {
    if s == [] then None
    else if s[0] == c then Some(0)
    else match IndexOf(s[1..], c)
      case None => None
      case Some(i) =>
        assert s[..i + 1] == [s[0]] + s[1..][..i];
        Some(i + 1)
  }

  /** The first occurrence is the only position that holds `c` with no `c` before it. */
  lemma IndexOfFirst(s: string, c: char, i: nat)
    requires i < |s| && s[i] == c && c !in s[..i]
    ensures IndexOf(s, c) == Some(i)
  {
    assert c in s by { assert s[i] == c; }
    var j := IndexOf(s, c).value;
    forall k | 0 <= k < i ensures s[k] != c {
      assert s[..i][k] == s[k];
    }
    forall k | 0 <= k < j ensures s[k] != c {
      assert s[..j][k] == s[k];
    }
  }

  // ---------------------------------------------------------------------------
  // Decimal numbers
  // ---------------------------------------------------------------------------

  predicate IsDigit(c: char)
  {
    '0' <= c <= '9'
  }

  predicate AllDigits(s: string)
  {
    forall i :: 0 <= i < |s| ==> IsDigit(s[i])
  }

  function DigitChar(d: nat): (c: char)
    requires d < 10
    ensures IsDigit(c)
  {
    (('0' as int) + d) as char
  }

  function DigitValue(c: char): (d: nat)
    requires IsDigit(c)
    ensures d < 10
  {
    c as int - '0' as int
  }

  /** The value of a string of decimal digits, most significant first. */
  function DigitsValue(s: string): nat
    requires AllDigits(s)
  {
    if s == [] then 0 else DigitsValue(s[..|s| - 1]) * 10 + DigitValue(s[|s| - 1])
  }

  /** How a stream prints a non-negative integer: base ten, no leading zero. */
  function NatToString(n: nat): (r: string)
    ensures |r| > 0 && AllDigits(r)
    ensures |r| > 1 ==> r[0] != '0'
    decreases n
  {
    if n < 10 then [DigitChar(n)] else NatToString(n / 10) + [DigitChar(n % 10)]
  }

  /** Reading back a printed number gives the number. */
  lemma {:induction false} DigitsValueOfNatToString(n: nat)
    ensures DigitsValue(NatToString(n)) == n
    decreases n
  {
    var s := NatToString(n);
    if n >= 10 {
      DigitsValueOfNatToString(n / 10);
      assert s[..|s| - 1] == NatToString(n / 10);
    }
  }

  /** How a stream prints an int: a minus sign before a negative value. */
  function IntToString(i: int): (r: string)
    ensures |r| > 0 && NoNewline(r)
    ensures i >= 0 ==> r == NatToString(i)
    ensures i < 0 ==> r[0] == '-' && r[1..] == NatToString(-i)
  {
    if i < 0 then
      var d := NatToString(-i);
      assert '\n' !in d by { assert forall k :: 0 <= k < |d| ==> IsDigit(d[k]); }
      "-" + d
    else
      var d := NatToString(i);
      assert '\n' !in d by { assert forall k :: 0 <= k < |d| ==> IsDigit(d[k]); }
      d
  }

  // ---------------------------------------------------------------------------
  // Lines of text
  // ---------------------------------------------------------------------------

  predicate NoNewline(s: string)
  {
    '\n' !in s
  }

  lemma NoNewlineConcat(a: string, b: string)
    requires NoNewline(a) && NoNewline(b)
    ensures NoNewline(a + b)
  {
  }

  /** The text a stream receives when each of `lines` is written followed by "\n". */
  function Unlines(lines: seq<string>): (r: string)
    ensures r == [] || r[|r| - 1] == '\n'
  {
    if lines == [] then "" else Unlines(lines[..|lines| - 1]) + lines[|lines| - 1] + "\n"
  }

  lemma UnlinesSnoc(lines: seq<string>, line: string)
    ensures Unlines(lines + [line]) == Unlines(lines) + line + "\n"
  {
    assert (lines + [line])[..|lines|] == lines;
  }

  /** A stream that holds `out0` and then the lines `done` holds, after one more line
      is written, `out0` and then those lines and that line. */
  lemma UnlinesWrite(out0: string, done: seq<string>, out: string, line: string)
    requires out == out0 + Unlines(done)
    ensures out + line + "\n" == out0 + Unlines(done + [line])
  {
    UnlinesSnoc(done, line);
    ConcatAssociative(out0, Unlines(done), line);
    ConcatAssociative(out0, Unlines(done) + line, "\n");
  }

  /** Writing one more line of a list extends the text written so far. */
  lemma UnlinesPrefix(lines: seq<string>, i: nat)
    requires i < |lines|
    ensures Unlines(lines[..i + 1]) == Unlines(lines[..i]) + lines[i] + "\n"
  {
    assert lines[..i + 1][..i] == lines[..i];
  }

  /** Text split at each newline; a final piece without newline is a line too. */
  function Lines(s: string): seq<string>
    decreases |s|
  {
    if s == [] then []
    else match IndexOf(s, '\n')
      case None => [s]
      case Some(i) => [s[..i]] + Lines(s[i + 1..])
  }

  /** Splitting text that ends with a newline, followed by more text, splits the two
      parts separately. */
  lemma {:induction false} LinesOfTerminated(x: string, y: string)
    requires x == [] || x[|x| - 1] == '\n'
    ensures Lines(x + y) == Lines(x) + Lines(y)
    decreases |x|
  {
    if x == [] {
      assert x + y == y;
    } else {
      assert '\n' in x by { assert x[|x| - 1] == '\n'; }
      var i := IndexOf(x, '\n').value;
      var rest := x[i + 1..];
      LinesSplit(x, i);
      TerminatedSplit(x, y, i);
      LinesSplit(x + y, i);
      assert rest == [] || rest[|rest| - 1] == '\n';
      LinesOfTerminated(rest, y);
      ConcatAssociative([x[..i]], Lines(rest), Lines(y));
    }
  }

  /** Lines of a text with its first newline at `i`: the line before it, then the rest. */
  lemma LinesSplit(s: string, i: nat)
    requires IndexOf(s, '\n') == Some(i)
    ensures Lines(s) == [s[..i]] + Lines(s[i + 1..])
  {
  }

  /** Text ending in a newline keeps its first newline when more text follows it. */
  lemma TerminatedSplit(x: string, y: string, i: nat)
    requires IndexOf(x, '\n') == Some(i)
    ensures IndexOf(x + y, '\n') == Some(i)
    ensures (x + y)[..i] == x[..i] && (x + y)[i + 1..] == x[i + 1..] + y
  {
    assert (x + y)[..i] == x[..i];
    IndexOfFirst(x + y, '\n', i);
  }

  /** Lines and Unlines are inverse on lines without newlines: a report built from
      lines splits back into exactly those lines. */
  lemma {:induction false} LinesUnlines(lines: seq<string>)
    requires forall k :: 0 <= k < |lines| ==> NoNewline(lines[k])
    ensures Lines(Unlines(lines)) == lines
  {
    if lines != [] {
      var init, last := lines[..|lines| - 1], lines[|lines| - 1];
      LinesUnlines(init);
      var tail := last + "\n";
      ConcatAssociative(Unlines(init), last, "\n");
      assert Unlines(lines) == Unlines(init) + tail;
      LinesOfTerminated(Unlines(init), tail);
      LinesOfLine(last);
      assert lines == init + [last];
    }
  }

  /** One line followed by its newline splits back into that line. */
  lemma LinesOfLine(line: string)
    requires NoNewline(line)
    ensures Lines(line + "\n") == [line]
  {
    var tail := line + "\n";
    assert tail[..|line|] == line;
    IndexOfFirst(tail, '\n', |line|);
    LinesSplit(tail, |line|);
    assert tail[|line| + 1..] == [];
  }

  /** Concatenation is associative; stated once so that callers need not prove it in a
      context full of other facts about the sequences. */
  lemma ConcatAssociative<T>(a: seq<T>, b: seq<T>, c: seq<T>)
    ensures (a + b) + c == a + (b + c)
  {
  }

  /** Writing two lists of lines one after the other writes their texts in turn. */
  lemma {:induction false} UnlinesAppend(a: seq<string>, b: seq<string>)
    ensures Unlines(a + b) == Unlines(a) + Unlines(b)
    decreases |b|
  {
    if b == [] {
      assert a + b == a;
    } else {
      var init, last := b[..|b| - 1], b[|b| - 1];
      assert (a + b)[..|a + b| - 1] == a + init && (a + b)[|a + b| - 1] == last;
      UnlinesAppend(a, init);
      ConcatAssociative(Unlines(a), Unlines(init), last);
      ConcatAssociative(Unlines(a), Unlines(init) + last, "\n");
    }
  }

  /** No line of `lines` holds a newline. */
  predicate NoNewlines(lines: seq<string>)
  {
    forall k :: 0 <= k < |lines| ==> NoNewline(lines[k])
  }

  lemma NoNewlinesAppend(a: seq<string>, b: seq<string>)
    requires NoNewlines(a) && NoNewlines(b)
    ensures NoNewlines(a + b)
  {
    forall k | 0 <= k < |a + b| ensures NoNewline((a + b)[k]) {
      if k >= |a| {
        assert (a + b)[k] == b[k - |a|];
      }
    }
  }

  /** Decimal digits hold no newline. */
  lemma NatToStringNoNewline(n: nat)
    ensures NoNewline(NatToString(n))
  {
  }

  lemma UnlinesSingle(a: string)
    ensures Unlines([a]) == a + "\n"
  {
    assert [a][..0] == [];
    assert "" + a == a;
  }

  /** An empty line and then `a`: the text stream << "\n" << a << "\n" writes. */
  lemma UnlinesBlankThen(a: string)
    ensures Unlines(["", a]) == "\n" + a + "\n"
  {
    assert ["", a][..1] == [""];
    UnlinesSingle("");
    assert "" + "\n" == "\n";
  }
}
