/** The unified diff the coding assistant writes, and reading it back. */
module UnifiedDiff {
  import opened Text
  import opened Selections

  function Decimal(n: nat): (s: string)
    ensures s != "" && '\n' !in s
  {
    var digit := ['0' + (n % 10) as char];
    if n < 10 then digit else Decimal(n / 10) + digit
  }

  function HunkHeader(orig: nat, mod: nat): string {
    "@@ -1," + Decimal(orig) + " +1," + Decimal(mod) + " @@"
  }

  function Header(path: string, orig: nat, mod: nat): string {
    "--- a/" + path + "\n" + "+++ b/" + path + "\n" + HunkHeader(orig, mod) + "\n"
  }

  /** The lines of `lines` that do not occur in `other`. */
  function Absent(lines: seq<string>, other: seq<string>): seq<string> {
    if lines == [] then []
    else
      var last := lines[|lines| - 1];
      Absent(lines[..|lines| - 1], other) + (if last in other then [] else [last])
  }

  /** Lines with their mark: `-` for what is gone, then `+` or a space for every line there is now. */
  function Removals(gone: seq<string>): seq<string> {
    seq(|gone|, i requires 0 <= i < |gone| => "-" + gone[i])
  }

  function Additions(lines: seq<string>, orig: seq<string>): seq<string> {
    seq(|lines|, i requires 0 <= i < |lines| => (if lines[i] in orig then " " else "+") + lines[i])
  }

  function Body(orig: seq<string>, mod: seq<string>): seq<string> {
    Removals(Absent(orig, mod)) + Additions(mod, orig)
  }

  /** Every line followed by a line end. */
  function Render(lines: seq<string>): string {
    if lines == [] then "" else Render(lines[..|lines| - 1]) + lines[|lines| - 1] + "\n"
  }

  function Diff(original: string, modified: string, path: string): string {
    var orig, mod := Split(original, '\n'), Split(modified, '\n');
    Header(path, |orig|, |mod|) + Render(Body(orig, mod))
  }

  method SynthesizeUnifiedDiff(original: string, modified: string, path: string) returns (diff: string)
    ensures diff == Diff(original, modified, path)
  {
    hide Split, Decimal, Render, Absent;
    var origLines, modLines := Split(original, '\n'), Split(modified, '\n');
    ghost var header := Header(path, |origLines|, |modLines|);
    diff := Header(path, |origLines|, |modLines|);
    ghost var written: seq<string> := [];
    RenderNothing(header, origLines, modLines);
    for k := 0 to |origLines|
      invariant diff == header + Render(written) && written == Removals(Absent(origLines[..k], modLines))
    {
      var l := origLines[k];
      AbsentStep(origLines, modLines, k);
      if l !in modLines {
        RenderMore(header, written, "-" + l);
        diff := diff + "-" + l + "\n";
        written := written + ["-" + l];
      }
    }
    assert origLines[..|origLines|] == origLines;
    ghost var removals, additions := written, Additions(modLines, origLines);
    for k := 0 to |modLines|
      invariant diff == header + Render(written) && written == removals + additions[..k]
    {
      var l := modLines[k];
      RenderMore(header, written, additions[k]);
      if l !in origLines {
        diff := diff + "+" + l + "\n";
      } else {
        diff := diff + " " + l + "\n";
      }
      written := written + [additions[k]];
    }
    assert written == removals + additions;
  }

  lemma RenderNothing(header: string, orig: seq<string>, mod: seq<string>)
    ensures header == header + Render([]) && Removals(Absent(orig[..0], mod)) == []
  {
  }

  lemma AbsentStep(orig: seq<string>, mod: seq<string>, k: nat)
    requires k < |orig|
    ensures Removals(Absent(orig[..k + 1], mod)) ==
            Removals(Absent(orig[..k], mod)) + (if orig[k] in mod then [] else ["-" + orig[k]])
  {
    assert orig[..k + 1][..k] == orig[..k];
  }

  lemma RenderMore(header: string, lines: seq<string>, line: string)
    ensures header + Render(lines + [line]) == header + Render(lines) + line + "\n"
  {
    assert (lines + [line])[..|lines|] == lines;
  }

  // ----- reading a diff back -----

  const HEADER_LINES := 3

  const ADDED: set<char> := {'+', ' '}
  const REMOVED: set<char> := {'-'}

  /** The lines whose first character is one of `marks`, without it. */
  function Marked(lines: seq<string>, marks: set<char>): seq<string> {
    if lines == [] then []
    else
      var last := lines[|lines| - 1];
      Marked(lines[..|lines| - 1], marks) + (if last != "" && last[0] in marks then [last[1..]] else [])
  }

  function AfterHeader(diff: string): seq<string> {
    var lines := Split(diff, '\n');
    if |lines| < HEADER_LINES then [] else lines[HEADER_LINES..]
  }

  /** The new text: the added and kept lines after the header. */
  function Applied(diff: string): string {
    Join(Marked(AfterHeader(diff), ADDED), '\n')
  }

  function Removed(diff: string): seq<string> {
    Marked(AfterHeader(diff), REMOVED)
  }

  // ----- the lines of a diff -----

  lemma {:induction false} SplitRender(lines: seq<string>)
    requires forall k :: 0 <= k < |lines| ==> '\n' !in lines[k]
    ensures Split(Render(lines), '\n') == lines + [""]
  {
    if lines != [] {
      var short, last := lines[..|lines| - 1], lines[|lines| - 1];
      SplitRender(short);
      SplitConcat(Render(short) + last, "", '\n');
      assert Render(lines) == Render(short) + last + "\n" + "";
      RenderTail(short, last);
    }
  }

  /** A line that is not ended yet is the last piece. */
  lemma {:induction false} RenderTail(lines: seq<string>, tail: string)
    requires forall k :: 0 <= k < |lines| ==> '\n' !in lines[k]
    requires '\n' !in tail
    ensures Split(Render(lines) + tail, '\n') == lines + [tail]
  {
    if lines == [] {
      assert "" + tail == tail;
      SplitSingle(tail, '\n');
    } else {
      var short, last := lines[..|lines| - 1], lines[|lines| - 1];
      RenderTail(short, last);
      assert Render(lines) + tail == (Render(short) + last) + "\n" + tail;
      SplitConcat(Render(short) + last, tail, '\n');
      SplitSingle(tail, '\n');
    }
  }

  /** The pieces of the two name lines. */
  function NameLines(prefix: string, path: string): seq<string> {
    [prefix + Split(path, '\n')[0]] + Split(path, '\n')[1..]
  }

  lemma {:induction false} AbsentHasNoLineEnd(lines: seq<string>, other: seq<string>)
    requires forall k :: 0 <= k < |lines| ==> '\n' !in lines[k]
    ensures forall k :: 0 <= k < |Absent(lines, other)| ==> '\n' !in Absent(lines, other)[k]
  {
    if lines != [] {
      AbsentHasNoLineEnd(lines[..|lines| - 1], other);
    }
  }

  lemma FourSplits(a: string, b: string, hunk: string, rest: string)
    ensures Split(a + "\n" + (b + "\n" + (hunk + "\n" + rest)), '\n') ==
            Split(a, '\n') + (Split(b, '\n') + (Split(hunk, '\n') + Split(rest, '\n')))
  {
    hide Split;
    SplitConcat(hunk, rest, '\n');
    SplitConcat(b, hunk + "\n" + rest, '\n');
    SplitConcat(a, b + "\n" + (hunk + "\n" + rest), '\n');
  }

  lemma HeaderParts(path: string, orig: nat, mod: nat, rest: string)
    ensures Header(path, orig, mod) + rest ==
            ("--- a/" + path) + "\n" + (("+++ b/" + path) + "\n" + (HunkHeader(orig, mod) + "\n" + rest))
  {
    hide Decimal, HunkHeader;
  }

  lemma BodyIsLines(orig: seq<string>, mod: seq<string>)
    requires forall k :: 0 <= k < |orig| ==> '\n' !in orig[k]
    requires forall k :: 0 <= k < |mod| ==> '\n' !in mod[k]
    ensures Split(Render(Body(orig, mod)), '\n') == Body(orig, mod) + [""]
  {
    AbsentHasNoLineEnd(orig, mod);
    SplitRender(Body(orig, mod));
  }

  /** A diff splits into the name lines, the hunk header, the body, and an empty last piece. */
  lemma DiffLines(original: string, modified: string, path: string)
    ensures var orig, mod := Split(original, '\n'), Split(modified, '\n');
            Split(Diff(original, modified, path), '\n') ==
            NameLines("--- a/", path) +
            (NameLines("+++ b/", path) + ([HunkHeader(|orig|, |mod|)] + (Body(orig, mod) + [""])))
  {
    hide Split, Render, Decimal, Body, Header;
    var orig, mod := Split(original, '\n'), Split(modified, '\n');
    SplitPieces(original, '\n');
    SplitPieces(modified, '\n');
    BodyIsLines(orig, mod);
    SplitSingle(HunkHeader(|orig|, |mod|), '\n');
    SplitPrefix("+++ b/", path, '\n');
    SplitPrefix("--- a/", path, '\n');
    HeaderParts(path, |orig|, |mod|, Render(Body(orig, mod)));
    FourSplits("--- a/" + path, "+++ b/" + path, HunkHeader(|orig|, |mod|), Render(Body(orig, mod)));
  }

  lemma {:induction false} MarkedConcat(a: seq<string>, b: seq<string>, marks: set<char>)
    ensures Marked(a + b, marks) == Marked(a, marks) + Marked(b, marks)
  {
    if b == [] {
      assert a + b == a;
    } else {
      assert (a + b)[..|a + b| - 1] == a + b[..|b| - 1];
      MarkedConcat(a, b[..|b| - 1], marks);
    }
  }

  lemma MarkedOne(line: string, marks: set<char>)
    ensures Marked([line], marks) == if line != "" && line[0] in marks then [line[1..]] else []
  {
    assert Marked([line][..0], marks) == [];
  }

  lemma {:induction false} MarkedRemovals(gone: seq<string>, marks: set<char>)
    ensures Marked(Removals(gone), marks) == if '-' in marks then gone else []
  {
    if gone != [] {
      var short, last := gone[..|gone| - 1], gone[|gone| - 1];
      MarkedRemovals(short, marks);
      assert Removals(gone)[..|gone| - 1] == Removals(short);
      assert ("-" + last)[1..] == last;
    }
  }

  /** The lines whose mark is wanted, among those with a plus and those with a space. */
  lemma {:induction false} MarkedAdditions(lines: seq<string>, orig: seq<string>, marks: set<char>,
                                           wanted: string -> bool)
    requires forall l :: wanted(l) <==> if l in orig then ' ' in marks else '+' in marks
    ensures Selects(lines, wanted, Marked(Additions(lines, orig), marks))
    ensures '+' in marks && ' ' in marks ==> Marked(Additions(lines, orig), marks) == lines
    ensures '+' !in marks && ' ' !in marks ==> Marked(Additions(lines, orig), marks) == []
  {
    hide Selects;
    if lines == [] {
      SelectsNone(wanted);
    } else {
      var short, last := lines[..|lines| - 1], lines[|lines| - 1];
      MarkedAdditions(short, orig, marks, wanted);
      assert Additions(lines, orig)[..|lines| - 1] == Additions(short, orig);
      assert (" " + last)[1..] == last && ("+" + last)[1..] == last;
      var kept := Marked(Additions(short, orig), marks);
      SelectsMore(short, last, wanted, kept);
      assert kept + [] == kept && lines == short + [last];
    }
  }

  /** The lines of one text that are not among those of the other, in order. */
  lemma {:induction false} AbsentOnLines(lines: seq<string>, other: seq<string>, gone: string -> bool)
    requires forall l :: gone(l) <==> l !in other
    ensures Selects(lines, gone, Absent(lines, other))
  {
    hide Selects;
    if lines == [] {
      SelectsNone(gone);
    } else {
      var short, last := lines[..|lines| - 1], lines[|lines| - 1];
      AbsentOnLines(short, other, gone);
      var kept := Absent(short, other);
      SelectsMore(short, last, gone, kept);
      assert kept + [] == kept && lines == short + [last];
    }
  }

  /** Of the body, one set of marks gives the new lines and the other the lines that are gone. */
  lemma MarkedBody(orig: seq<string>, mod: seq<string>, marks: set<char>, wanted: string -> bool)
    requires forall l :: wanted(l) <==> if l in orig then ' ' in marks else '+' in marks
    ensures var read := Marked(Body(orig, mod) + [""], marks);
            && (marks == ADDED ==> read == mod)
            && (marks == REMOVED ==> read == Absent(orig, mod))
            && ('-' !in marks ==> Selects(mod, wanted, read))
  {
    hide Selects, Absent;
    var gone, additions := Absent(orig, mod), Additions(mod, orig);
    MarkedOne("", marks);
    MarkedConcat(Body(orig, mod), [""], marks);
    MarkedConcat(Removals(gone), additions, marks);
    MarkedRemovals(gone, marks);
    MarkedAdditions(mod, orig, marks, wanted);
    hide Marked, Additions, Removals;
    var marked := Marked(additions, marks);
    assert [] + marked == marked && marked + [] == marked && gone + [] == gone;
  }

  function Names(path: string): seq<string> {
    NameLines("--- a/", path) + NameLines("+++ b/", path)
  }

  lemma NamesLength(path: string)
    ensures |Names(path)| == 2 * |Split(path, '\n')|
  {
  }

  lemma LinesAfterHeader(original: string, modified: string, path: string)
    ensures var orig, mod := Split(original, '\n'), Split(modified, '\n');
            && |Names(path)| >= 2
            && AfterHeader(Diff(original, modified, path)) ==
               (Names(path) + [HunkHeader(|orig|, |mod|)])[3..] + (Body(orig, mod) + [""])
  {
    hide Split, Diff, Body, HunkHeader, NameLines;
    var orig, mod := Split(original, '\n'), Split(modified, '\n');
    var hunk, tail := HunkHeader(|orig|, |mod|), Body(orig, mod) + [""];
    DiffLines(original, modified, path);
    NamesLength(path);
    DropThree(NameLines("--- a/", path), NameLines("+++ b/", path), hunk, tail);
  }

  lemma DropThree(a: seq<string>, b: seq<string>, hunk: string, tail: seq<string>)
    requires |a| + |b| >= 2
    ensures |a + (b + ([hunk] + tail))| >= 3
    ensures (a + (b + ([hunk] + tail)))[3..] == (a + b + [hunk])[3..] + tail
  {
    assert a + (b + ([hunk] + tail)) == (a + b + [hunk]) + tail;
  }

  /** The lines taken for lines of the body when the path contains line ends. */
  function Stray(path: string, marks: set<char>): seq<string> {
    if |Names(path)| < 3 then [] else Marked(Names(path)[3..], marks)
  }

  lemma StrayLines(path: string, hunk: string, marks: set<char>)
    requires hunk != "" && hunk[0] == '@' && '@' !in marks && |Names(path)| >= 2
    ensures Marked((Names(path) + [hunk])[3..], marks) == Stray(path, marks)
  {
    hide Names;
    MarkedOne(hunk, marks);
    var names := Names(path);
    if |names| < 3 {
      assert (names + [hunk])[3..] == [];
    } else {
      assert (names + [hunk])[3..] == names[3..] + [hunk];
      MarkedConcat(names[3..], [hunk], marks);
      assert Marked(names[3..], marks) + [] == Marked(names[3..], marks);
    }
  }

  /** Reading back gives the lines of the body, behind the stray ones. */
  lemma ReadBack(original: string, modified: string, path: string, marks: set<char>)
    requires '@' !in marks
    ensures var orig, mod := Split(original, '\n'), Split(modified, '\n');
            Marked(AfterHeader(Diff(original, modified, path)), marks) ==
            Stray(path, marks) + Marked(Body(orig, mod) + [""], marks)
  {
    hide Split, Diff, Body, Names, Marked, AfterHeader, Stray, Decimal;
    var orig, mod := Split(original, '\n'), Split(modified, '\n');
    var hunk := HunkHeader(|orig|, |mod|);
    LinesAfterHeader(original, modified, path);
    MarkedConcat((Names(path) + [hunk])[3..], Body(orig, mod) + [""], marks);
    assert hunk[0] == '@';
    StrayLines(path, hunk, marks);
  }

  lemma AppliedLines(original: string, modified: string, path: string)
    ensures Applied(Diff(original, modified, path)) == Join(Stray(path, ADDED) + Split(modified, '\n'), '\n')
  {
    hide Split, Diff, Body, Marked, AfterHeader, Stray, Join;
    var orig := Split(original, '\n');
    ReadBack(original, modified, path, ADDED);
    MarkedBody(orig, Split(modified, '\n'), ADDED, l => if l in orig then ' ' in ADDED else '+' in ADDED);
  }

  predicate IsMarked(line: string, marks: set<char>) {
    line != "" && line[0] in marks
  }

  /** Whether no line of a path of several lines is taken for one of the body: none starts with a mark,
      and a third would leave the second name line, which starts with a plus. */
  predicate NoneMarkedInPath(path: string, marks: set<char>) {
    var parts := Split(path, '\n');
    && (forall k :: 1 <= k < |parts| ==> !IsMarked(parts[k], marks))
    && ('+' in marks ==> |parts| <= 2)
  }

  lemma {:induction false} MarkedNone(lines: seq<string>, marks: set<char>)
    ensures Marked(lines, marks) == [] <==> forall k :: 0 <= k < |lines| ==> !IsMarked(lines[k], marks)
  {
    if lines != [] {
      MarkedNone(lines[..|lines| - 1], marks);
    }
  }

  lemma StrayIff(path: string, marks: set<char>)
    ensures Stray(path, marks) == [] <==> NoneMarkedInPath(path, marks)
  {
    hide Split, Marked;
    var parts, names := Split(path, '\n'), Names(path);
    var n := |parts|;
    NamesLength(path);
    if n >= 2 {
      var rest := names[3..];
      MarkedNone(rest, marks);
      forall k | 1 <= k < n ensures rest[n + k - 3] == parts[k] {
        assert names[n + k] == parts[k];
      }
      assert names[n] == "+++ b/" + parts[0];
      assert n >= 3 ==> rest[n - 3] == names[n] && (IsMarked(rest[n - 3], marks) <==> '+' in marks);
      forall j | 0 <= j < |rest| ensures j + 3 == n || exists k :: 1 <= k < n && rest[j] == parts[k] {
        if j + 3 != n {
          assert rest[j] == parts[if j + 3 < n then j + 3 else j + 3 - n];
        }
      }
    }
  }

  /** Whether a path leaves the diff readable: no line end, or one that is followed by neither a
      plus nor a space. */
  predicate ReadablePath(path: string) {
    var parts := Split(path, '\n');
    |parts| == 1 || (|parts| == 2 && (parts[1] == "" || (parts[1][0] != '+' && parts[1][0] != ' ')))
  }

  lemma {:induction false} JoinLength(parts: seq<string>, more: seq<string>)
    requires more != []
    ensures |Join(parts + more, '\n')| >= |Join(more, '\n')|
    ensures parts != [] ==> |Join(parts + more, '\n')| > |Join(more, '\n')|
  {
    if parts == [] {
      assert parts + more == more;
    } else {
      assert (parts + more)[1..] == parts[1..] + more;
      JoinLength(parts[1..], more);
    }
  }

  /** Applying a diff gives back the modified text, for all texts, exactly when the path is readable. */
  lemma RoundTripIff(original: string, modified: string, path: string)
    ensures Applied(Diff(original, modified, path)) == modified <==> ReadablePath(path)
  {
    AppliedLines(original, modified, path);
    StrayIff(path, ADDED);
    assert NoneMarkedInPath(path, ADDED) <==> ReadablePath(path);
    JoinSplit(modified, '\n');
    var mod := Split(modified, '\n');
    if Stray(path, ADDED) == [] {
      assert Stray(path, ADDED) + mod == mod;
    } else {
      JoinLength(Stray(path, ADDED), mod);
    }
  }

  /** What is read back with some marks is what the body holds, exactly when the path adds nothing. */
  lemma SelectedIff(stray: seq<string>, read: seq<string>, all: seq<string>, wanted: string -> bool)
    requires Selects(all, wanted, read)
    ensures Selects(all, wanted, stray + read) <==> stray == []
  {
    hide Selects;
    var whole := stray + read;
    assert |whole| == |stray| + |read|;
    if stray == [] {
      assert whole == read;
    } else if Selects(all, wanted, whole) {
      SelectsOnce(all, wanted, read, whole);
    }
  }

  /** The lines read back with a minus are exactly the original lines that do not occur in the modified
      text, in order, if and only if no continuation line of the path starts with a minus. */
  lemma RemovedLinesIff(original: string, modified: string, path: string)
    ensures var orig, mod := Split(original, '\n'), Split(modified, '\n');
            Selects(orig, l => l !in mod, Removed(Diff(original, modified, path))) <==>
            NoneMarkedInPath(path, REMOVED)
  {
    hide Split, Diff, Body, Marked, AfterHeader, Stray, NoneMarkedInPath, Selects;
    var orig, mod := Split(original, '\n'), Split(modified, '\n');
    ReadBack(original, modified, path, REMOVED);
    MarkedBody(orig, mod, REMOVED, l => if l in orig then ' ' in REMOVED else '+' in REMOVED);
    StrayIff(path, REMOVED);
    AbsentOnLines(orig, mod, l => l !in mod);
    SelectedIff(Stray(path, REMOVED), Absent(orig, mod), orig, l => l !in mod);
  }

  /** The lines read back with a plus are exactly the modified lines that do not occur in the original
      text, in order, if and only if the path has at most one line end, not followed by a plus. */
  lemma AddedLinesIff(original: string, modified: string, path: string)
    ensures var orig, mod := Split(original, '\n'), Split(modified, '\n');
            Selects(mod, l => l !in orig, Marked(AfterHeader(Diff(original, modified, path)), {'+'})) <==>
            NoneMarkedInPath(path, {'+'})
  {
    hide Split, Diff, Body, Marked, AfterHeader, Stray, NoneMarkedInPath, Selects;
    var orig, mod := Split(original, '\n'), Split(modified, '\n');
    var marks, wanted := {'+'}, l => l !in orig;
    ReadBack(original, modified, path, marks);
    MarkedBody(orig, mod, marks, wanted);
    StrayIff(path, marks);
    SelectedIff(Stray(path, marks), Marked(Body(orig, mod) + [""], marks), mod, wanted);
  }

  /** The lines read back with a space are exactly the modified lines that occur in the original text, in
      order, if and only if no continuation line of the path starts with a space. */
  lemma CommonLinesIff(original: string, modified: string, path: string)
    ensures var orig, mod := Split(original, '\n'), Split(modified, '\n');
            Selects(mod, l => l in orig, Marked(AfterHeader(Diff(original, modified, path)), {' '})) <==>
            NoneMarkedInPath(path, {' '})
  {
    hide Split, Diff, Body, Marked, AfterHeader, Stray, NoneMarkedInPath, Selects;
    var orig, mod := Split(original, '\n'), Split(modified, '\n');
    var marks, wanted := {' '}, l => l in orig;
    ReadBack(original, modified, path, marks);
    MarkedBody(orig, mod, marks, wanted);
    StrayIff(path, marks);
    SelectedIff(Stray(path, marks), Marked(Body(orig, mod) + [""], marks), mod, wanted);
  }

  // ----- the counts in the hunk header -----

  /** A number read digit by digit, `None` where a character is no digit. */
  function Read(digits: string): Option<nat> {
    if digits == "" then Some(0)
    else
      var n, last := |digits| - 1, digits[|digits| - 1];
      var front := Read(digits[..n]);
      if front.Some? && '0' <= last <= '9' then Some(front.value * 10 + ValueOf(last)) else None
  }

  function ValueOf(digit: char): nat
    requires '0' <= digit
  {
    digit as nat - '0' as nat
  }

  /** The counts in the header are read back as the numbers of lines; no number starts with a zero. */
  lemma {:induction false} DecimalReadsBack(n: nat)
    ensures Read(Decimal(n)) == Some(n)
    ensures n > 0 ==> Decimal(n)[0] != '0'
  {
    DecimalParts(n);
    if n < 10 {
      assert Read("") == Some(0);
      hide *;
      ReadMore("", n, DigitOf(n));
    } else {
      hide *;
      var front := n / 10;
      assert front > 0 && n == front * 10 + n % 10;
      DecimalReadsBack(front);
      ReadMore(Decimal(front), n % 10, DigitOf(n % 10));
    }
  }

  function DigitOf(d: nat): char
    requires d < 10
  {
    '0' + d as char
  }

  lemma DecimalParts(n: nat)
    ensures n < 10 ==> Decimal(n) == "" + [DigitOf(n)] && (n > 0 ==> Decimal(n)[0] != '0')
    ensures n >= 10 ==> Decimal(n) == Decimal(n / 10) + [DigitOf(n % 10)]
  {
  }

  lemma ReadMore(front: string, d: nat, c: char)
    requires d < 10 && c == DigitOf(d)
    ensures Read(front + [c]) == if Read(front).Some? then Some(Read(front).value * 10 + d) else None
  {
    ReadLast(front, c);
    assert '0' <= c <= '9' && ValueOf(c) == d;
    hide Read, DigitOf, ValueOf;
  }

  lemma ReadLast(front: string, c: char)
    requires '0' <= c <= '9'
    ensures Read(front + [c]) == if Read(front).Some? then Some(Read(front).value * 10 + ValueOf(c)) else None
  {
    hide ValueOf;
    assert (front + [c])[..|front|] == front;
  }
}
