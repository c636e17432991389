/** `clean_nohup`: strips tqdm progress-bar prefixes from the lines of a log and
    names the cleaned file. Reading and writing the files is not modelled: the
    lines come in as a sequence and the cleaned lines and file name go out. */
module CleanNohup {

  /** The two markers tqdm writes at the end of its rate field. */
  const ItersPerSecond: string := "it/s]"
  const SecondsPerIter: string := "s/it]"

  // ---------------------------------------------------------------------------
  // str.strip(' \n')

  /** The characters `strip(' \n')` removes: space and newline, not tab or `\r`. */
  predicate IsStripped(c: char)
  {
    c == ' ' || c == '\n'
  }

  /** The first index from `i` on whose character is not stripped, or `|s|`. */
  function LeadingEnd(s: string, i: nat): (r: nat)
    requires i <= |s|
    ensures i <= r <= |s|
    ensures forall k :: i <= k < r ==> IsStripped(s[k])
    ensures r < |s| ==> !IsStripped(s[r])
    decreases |s| - i
  {
    if i < |s| && IsStripped(s[i]) then LeadingEnd(s, i + 1) else i
  }

  /** Going down from `j`, the last index, not below `lo`, after which every
      character up to `j` is stripped. */
  function TrailingStart(s: string, lo: nat, j: nat): (r: nat)
    requires lo <= j <= |s|
    ensures lo <= r <= j
    ensures forall k :: r <= k < j ==> IsStripped(s[k])
    ensures r > lo ==> !IsStripped(s[r - 1])
    decreases j
  {
    if j > lo && IsStripped(s[j - 1]) then TrailingStart(s, lo, j - 1) else j
  }

  /** `s.strip(' \n')`. */
  function Strip(s: string): string
  {
    var i := LeadingEnd(s, 0);
    s[i..TrailingStart(s, i, |s|)]
  }

  /** `Strip(s)` is the slice `s[i..j]` where everything before `i` and from `j`
      on is a space or a newline, and the slice neither starts nor ends with one. */
  lemma StripSlice(s: string)
    ensures
      var i := LeadingEnd(s, 0);
      var j := TrailingStart(s, i, |s|);
      i <= j <= |s| && Strip(s) == s[i..j] &&
      (forall k :: 0 <= k < i ==> IsStripped(s[k])) &&
      (forall k :: j <= k < |s| ==> IsStripped(s[k])) &&
      (i < j ==> !IsStripped(s[i]) && !IsStripped(s[j - 1]))
  {
  }

  /** Stripping twice is stripping once. */
  lemma StripIdempotent(s: string)
    ensures Strip(Strip(s)) == Strip(s)
  {
    var r := Strip(s);
    StripSlice(s);
    assert LeadingEnd(r, 0) == 0;
    assert TrailingStart(r, 0, |r|) == |r|;
    assert r[0..|r|] == r;
  }

  /** Tabs and carriage returns survive the strip. */
  lemma StripKeepsTabAndReturn()
    ensures Strip(" \t done\r\n") == "\t done\r"
  {
    var s := " \t done\r\n";
    assert LeadingEnd(s, 0) == 1;
    assert TrailingStart(s, 1, 9) == 8;
    assert s[1..8] == "\t done\r";
  }

  // ---------------------------------------------------------------------------
  // str.find

  /** `pat` occurs in `s` starting at index `k`. */
  predicate OccursAt(s: string, pat: string, k: int)
  {
    0 <= k && k + |pat| <= |s| && s[k..k + |pat|] == pat
  }

  predicate Contains(s: string, pat: string)
  {
    exists k :: 0 <= k <= |s| && OccursAt(s, pat, k)
  }

  /** The first occurrence of `pat` in `s` at or after `i`, or -1. */
  function FindFrom(s: string, pat: string, i: nat): (r: int)
    requires i <= |s|
    ensures r == -1 || (i <= r && OccursAt(s, pat, r))
    ensures forall k :: i <= k && (r == -1 || k < r) ==> !OccursAt(s, pat, k)
    decreases |s| - i
  {
    if OccursAt(s, pat, i) then i else if i == |s| then -1 else FindFrom(s, pat, i + 1)
  }

  /** `s.find(pat)`: the lowest index where `pat` occurs in `s`, or -1 when it
      does not occur at all. */
  function Find(s: string, pat: string): (r: int)
    ensures r == -1 || OccursAt(s, pat, r)
    ensures forall k :: 0 <= k && (r == -1 || k < r) ==> !OccursAt(s, pat, k)
  {
    FindFrom(s, pat, 0)
  }

  /** -1 exactly when `pat` does not occur. */
  lemma FindAbsent(s: string, pat: string)
    ensures Find(s, pat) == -1 <==> !Contains(s, pat)
  {
  }

  // ---------------------------------------------------------------------------
  // One line

  /** Lines 5-13: strip the line, then cut everything up to and including the
      first `it/s]`, or failing that the first `s/it]`. */
  function ProcessLine(line: string): string
  {
    var l := Strip(line);
    var a := Find(l, ItersPerSecond);
    var b := Find(l, SecondsPerIter);
    if a != -1 then l[a + 5..] else if b != -1 then l[b + 5..] else l
  }

  /** The processed line is a suffix of the stripped line: what follows the first
      `it/s]` if there is one, else what follows the first `s/it]` if there is
      one, else the whole stripped line. */
  lemma ProcessLineCut(line: string)
    ensures
      var l, r := Strip(line), ProcessLine(line);
      var cut := |l| - |r|;
      0 <= cut && r == l[cut..] &&
      (Contains(l, ItersPerSecond) ==>
        cut >= 5 && OccursAt(l, ItersPerSecond, cut - 5) &&
        forall k :: 0 <= k < cut - 5 ==> !OccursAt(l, ItersPerSecond, k)) &&
      (!Contains(l, ItersPerSecond) && Contains(l, SecondsPerIter) ==>
        cut >= 5 && OccursAt(l, SecondsPerIter, cut - 5) &&
        forall k :: 0 <= k < cut - 5 ==> !OccursAt(l, SecondsPerIter, k)) &&
      (!Contains(l, ItersPerSecond) && !Contains(l, SecondsPerIter) ==> r == l)
  {
    var l, r := Strip(line), ProcessLine(line);
    var a, b := Find(l, ItersPerSecond), Find(l, SecondsPerIter);
    FindAbsent(l, ItersPerSecond);
    FindAbsent(l, SecondsPerIter);
    if a != -1 {
      CutAfterFirst(l, ItersPerSecond, r);
    } else if b != -1 {
      CutAfterFirst(l, SecondsPerIter, r);
    } else {
      assert r == l;
    }
  }

  /** Cutting after the first occurrence of a five-character field leaves the
      suffix that starts five characters after that occurrence. */
  lemma CutAfterFirst(l: string, pat: string, r: string)
    requires |pat| == 5 && Find(l, pat) != -1 && r == l[Find(l, pat) + 5..]
    ensures
      var cut := |l| - |r|;
      cut >= 5 && r == l[cut..] && OccursAt(l, pat, cut - 5) &&
      forall k :: 0 <= k < cut - 5 ==> !OccursAt(l, pat, k)
  {
  }

  /** A tqdm line: everything up to the rate field goes. */
  lemma ProcessLineExample()
    ensures ProcessLine("3.2it/s] ok\n") == " ok"
  {
    var line := "3.2it/s] ok\n";
    var l := "3.2it/s] ok";
    assert LeadingEnd(line, 0) == 0;
    assert TrailingStart(line, 0, 12) == 11;
    assert Strip(line) == l;
    assert l[3..8] == ItersPerSecond;
    forall k | 0 <= k < 3 ensures !OccursAt(l, ItersPerSecond, k) {
      assert l[k..k + 5][0] == l[k] != ItersPerSecond[0];
    }
    assert Find(l, ItersPerSecond) == 3;
    assert l[8..] == " ok";
  }

  /** `it/s]` wins even when `s/it]` comes first in the line. */
  lemma ProcessLinePriority()
    ensures ProcessLine("s/it]it/s]b") == "b"
  {
    var l := "s/it]it/s]b";
    assert LeadingEnd(l, 0) == 0;
    assert TrailingStart(l, 0, 11) == 11;
    assert Strip(l) == l;
    assert OccursAt(l, ItersPerSecond, 5);
    forall k | 0 <= k < 5 ensures !OccursAt(l, ItersPerSecond, k) {
      assert l[k] != 'i' || l[k + 2] != '/';
    }
    assert Find(l, ItersPerSecond) == 5;
    assert l[10..] == "b";
  }

  // ---------------------------------------------------------------------------
  // All lines

  /** Lines 14-15 for one processed line: kept, with a newline, unless it is
      blank once spaces and newlines are stripped. */
  function Emitted(processed: string): seq<string>
  {
    if Strip(processed) != "" then [processed + "\n"] else []
  }

  /** The list `outs` after the loop has seen `lines`, for a per-line step `emit`. */
  function CleanedLinesWith(lines: seq<string>, emit: string -> seq<string>): seq<string>
  {
    if lines == [] then []
    else CleanedLinesWith(lines[..|lines| - 1], emit) + emit(lines[|lines| - 1])
  }

  function EmitLine(line: string): seq<string>
  {
    Emitted(ProcessLine(line))
  }

  function CleanedLines(lines: seq<string>): seq<string>
  {
    CleanedLinesWith(lines, EmitLine)
  }

  lemma CleanedLinesWithSnoc(lines: seq<string>, line: string, emit: string -> seq<string>)
    ensures CleanedLinesWith(lines + [line], emit) == CleanedLinesWith(lines, emit) + emit(line)
  {
    assert (lines + [line])[..|lines|] == lines;
  }

  lemma {:induction false} CleanedLinesWithAppend(a: seq<string>, b: seq<string>, emit: string -> seq<string>)
    ensures CleanedLinesWith(a + b, emit) == CleanedLinesWith(a, emit) + CleanedLinesWith(b, emit)
    decreases |b|
  {
    if b == [] {
      assert a + b == a;
    } else {
      var n := |b| - 1;
      var init, last := b[..n], b[n];
      assert b == init + [last];
      assert a + b == (a + init) + [last];
      calc {
        CleanedLinesWith(a + b, emit);
        { CleanedLinesWithSnoc(a + init, last, emit); }
        CleanedLinesWith(a + init, emit) + emit(last);
        { CleanedLinesWithAppend(a, init, emit); }
        (CleanedLinesWith(a, emit) + CleanedLinesWith(init, emit)) + emit(last);
        CleanedLinesWith(a, emit) + (CleanedLinesWith(init, emit) + emit(last));
        { CleanedLinesWithSnoc(init, last, emit); }
        CleanedLinesWith(a, emit) + CleanedLinesWith(b, emit);
      }
    }
  }

  /** Cleaning works line by line: cleaning a log in two parts and joining the
      results is cleaning the whole log. */
  lemma CleanedLinesAppend(a: seq<string>, b: seq<string>)
    ensures CleanedLines(a + b) == CleanedLines(a) + CleanedLines(b)
  {
    CleanedLinesWithAppend(a, b, EmitLine);
  }

  /** With a step that emits at most one line per line, there are at most as
      many output lines as input lines, and each comes from one input line. */
  lemma {:induction false} CleanedLinesWithShape(lines: seq<string>, emit: string -> seq<string>)
    requires forall line :: |emit(line)| <= 1
    ensures |CleanedLinesWith(lines, emit)| <= |lines|
    ensures forall o :: o in CleanedLinesWith(lines, emit) ==>
      exists i :: 0 <= i < |lines| && o in emit(lines[i])
  {
    if lines != [] {
      var n := |lines| - 1;
      var init := lines[..n];
      CleanedLinesWithShape(init, emit);
      forall o | o in CleanedLinesWith(lines, emit)
        ensures exists i :: 0 <= i < |lines| && o in emit(lines[i])
      {
        if o in CleanedLinesWith(init, emit) {
          var i :| 0 <= i < n && o in emit(init[i]);
          assert init[i] == lines[i];
        } else {
          assert o in emit(lines[n]);
        }
      }
    }
  }

  /** Whatever the step emits for one line appears in the output. */
  lemma CleanedLinesWithKeeps(lines: seq<string>, emit: string -> seq<string>, i: nat)
    requires i < |lines|
    ensures forall o :: o in emit(lines[i]) ==> o in CleanedLinesWith(lines, emit)
  {
    var before, after := lines[..i], lines[i + 1..];
    assert lines == before + [lines[i]] + after;
    CleanedLinesWithAppend(before + [lines[i]], after, emit);
    CleanedLinesWithSnoc(before, lines[i], emit);
  }

  lemma EmitLineShape(line: string)
    ensures |EmitLine(line)| <= 1
    ensures forall o :: o in EmitLine(line) ==>
      o == ProcessLine(line) + "\n" && Strip(ProcessLine(line)) != ""
  {
  }

  /** At most one output line per input line; each output line is a processed
      input line, not blank, followed by a newline. */
  lemma CleanedLinesShape(lines: seq<string>)
    ensures |CleanedLines(lines)| <= |lines|
    ensures forall o :: o in CleanedLines(lines) ==>
      |o| > 0 && o[|o| - 1] == '\n' && Strip(o[..|o| - 1]) != "" &&
      exists i :: 0 <= i < |lines| && o == ProcessLine(lines[i]) + "\n"
  {
    forall line ensures |EmitLine(line)| <= 1 {
      EmitLineShape(line);
    }
    CleanedLinesWithShape(lines, EmitLine);
    forall o | o in CleanedLines(lines)
      ensures |o| > 0 && o[|o| - 1] == '\n' && Strip(o[..|o| - 1]) != "" &&
        exists i :: 0 <= i < |lines| && o == ProcessLine(lines[i]) + "\n"
    {
      var i :| 0 <= i < |lines| && o in EmitLine(lines[i]);
      EmitLineShape(lines[i]);
      var p := ProcessLine(lines[i]);
      assert o[..|o| - 1] == p;
    }
  }

  /** Every line that is not blank once processed is written out, with a newline. */
  lemma CleanedLinesKeepsNonBlank(lines: seq<string>, i: nat)
    requires i < |lines| && Strip(ProcessLine(lines[i])) != ""
    ensures ProcessLine(lines[i]) + "\n" in CleanedLines(lines)
  {
    CleanedLinesWithKeeps(lines, EmitLine, i);
    assert ProcessLine(lines[i]) + "\n" in EmitLine(lines[i]);
  }

  /** One more line of input: the output grows by what that line emits. */
  lemma CleanedLinesStep(lines: seq<string>, i: nat, processed: string)
    requires i < |lines| && processed == ProcessLine(lines[i])
    ensures CleanedLines(lines[..i + 1]) == CleanedLines(lines[..i]) + Emitted(processed)
  {
    assert lines[..i + 1] == lines[..i] + [lines[i]];
    CleanedLinesWithSnoc(lines[..i], lines[i], EmitLine);
  }

  /** `clean_nohup`: the cleaned lines it writes and the name of the file it
      writes them to. */
  method CleanNohup(filename: string, lines: seq<string>) returns (outName: string, outs: seq<string>)
    ensures outs == CleanedLines(lines)
    ensures outName == OutputName(filename)
  {
    outs := [];
    for i := 0 to |lines|
      invariant outs == CleanedLines(lines[..i])
    {
      var processed := ProcessLine(lines[i]);
      CleanedLinesStep(lines, i, processed);
      if Strip(processed) != "" {
        outs := outs + [processed + "\n"];
      }
    }
    assert lines[..|lines|] == lines;
    outName := OutputName(filename);
  }

  // ---------------------------------------------------------------------------
  // Output file name

  /** Python's `s.replace(target, replacement)`: every non-overlapping occurrence
      of `target`, scanning from the left, becomes `replacement`. */
  function ReplaceAll(s: string, target: string, replacement: string): string
    requires |target| > 0
  {
    if OccursAt(s, target, 0) then replacement + ReplaceAll(s[|target|..], target, replacement)
    else if s == [] then []
    else [s[0]] + ReplaceAll(s[1..], target, replacement)
  }

  /** Line 16: `filename.replace('.log', '_processed.log')`. */
  function OutputName(filename: string): string
  {
    ReplaceAll(filename, ".log", "_processed.log")
  }

  lemma SplitHead<T>(s: seq<T>, b: seq<T>, c: seq<T>)
    requires |s| > 0
    ensures [s[0]] + (s[1..] + b + c) == s + b + c
  {
    assert s == [s[0]] + s[1..];
  }

  /** A string without `target` has none in its tail either. */
  lemma NotContainsTail(s: string, target: string)
    requires |s| > 0 && !Contains(s, target)
    ensures !Contains(s[1..], target)
  {
    forall k | OccursAt(s[1..], target, k) ensures OccursAt(s, target, k + 1) {
      assert s[1..][k..k + |target|] == s[k + 1..k + 1 + |target|];
    }
  }

  /** A non-empty stem without `target`, followed by `target`, does not start
      with `target` when the first character of `target` does not recur in it. */
  lemma NoOccurrenceAtStart(stem: string, target: string, rest: string)
    requires |stem| > 0 && |target| > 0 && forall i :: 0 < i < |target| ==> target[i] != target[0]
    requires !Contains(stem, target)
    ensures !OccursAt([stem[0]] + (stem[1..] + target + rest), target, 0)
  {
    SplitHead(stem, target, rest);
    var s, n := stem + target + rest, |target|;
    if |stem| >= n {
      assert s[..n] == stem[..n];
      assert !OccursAt(stem, target, 0);
    } else {
      assert s[..n][|stem|] == target[0];
      assert target[|stem|] != target[0];
    }
  }

  /** A name without `.log` is left as it is. */
  lemma {:induction false} ReplaceAllAbsent(s: string, target: string, replacement: string)
    requires |target| > 0 && !Contains(s, target)
    ensures ReplaceAll(s, target, replacement) == s
  {
    if s != [] {
      assert !OccursAt(s, target, 0);
      NotContainsTail(s, target);
      ReplaceAllAbsent(s[1..], target, replacement);
    }
  }

  /** Scanning from the left, the first occurrence of `target` after a stem that
      holds none is replaced, and the scan goes on after it. This needs the first
      character of `target` not to recur in it (as with `.log`): otherwise an
      occurrence could start inside the stem. */
  lemma {:induction false} ReplaceAllAfterStem(stem: string, target: string, replacement: string, rest: string)
    requires |target| > 0 && forall i :: 0 < i < |target| ==> target[i] != target[0]
    requires !Contains(stem, target)
    ensures ReplaceAll(stem + target + rest, target, replacement)
      == stem + replacement + ReplaceAll(rest, target, replacement)
  {
    if stem == [] {
      ReplaceAllAtTarget(target, replacement, rest);
      assert stem + target + rest == target + rest;
    } else {
      var tail := stem[1..] + target + rest;
      NoOccurrenceAtStart(stem, target, rest);
      NotContainsTail(stem, target);
      ReplaceAllSkip(stem[0], tail, target, replacement);
      SplitHead(stem, target, rest);
      ReplaceAllAfterStem(stem[1..], target, replacement, rest);
      SplitHead(stem, replacement, ReplaceAll(rest, target, replacement));
    }
  }

  lemma ReplaceAllAtTarget(target: string, replacement: string, rest: string)
    requires |target| > 0
    ensures ReplaceAll(target + rest, target, replacement) == replacement + ReplaceAll(rest, target, replacement)
  {
    var s := target + rest;
    assert s[..|target|] == target;
    assert s[|target|..] == rest;
  }

  lemma ReplaceAllSkip(c: char, tail: string, target: string, replacement: string)
    requires |target| > 0 && !OccursAt([c] + tail, target, 0)
    ensures ReplaceAll([c] + tail, target, replacement) == [c] + ReplaceAll(tail, target, replacement)
  {
    assert ([c] + tail)[1..] == tail;
  }

  /** For the output name: a stem without `.log`, then `.log`, then anything. */
  lemma OutputNameAfterStem(stem: string, rest: string)
    requires !Contains(stem, ".log")
    ensures OutputName(stem + ".log" + rest) == stem + "_processed.log" + OutputName(rest)
  {
    var t := ".log";
    assert forall i :: 0 < i < |t| ==> t[i] != t[0];
    ReplaceAllAfterStem(stem, t, "_processed.log", rest);
  }

  /** `x.log`, where `x` itself contains no `.log`, becomes `x_processed.log`. */
  lemma OutputNameOfLog(stem: string)
    requires !Contains(stem, ".log")
    ensures OutputName(stem + ".log") == stem + "_processed.log"
  {
    OutputNameAfterStem(stem, []);
    assert stem + ".log" + [] == stem + ".log";
    assert stem + "_processed.log" + [] == stem + "_processed.log";
  }

  /** Every `.log` is replaced, not just the extension: `x.log.log` becomes
      `x_processed.log_processed.log`. */
  lemma OutputNameEveryOccurrence(stem: string)
    requires !Contains(stem, ".log")
    ensures OutputName(stem + ".log" + ".log") == stem + "_processed.log" + "_processed.log"
  {
    OutputNameAfterStem(stem, ".log");
    OutputNameOfLog([]);
    assert [] + ".log" == ".log";
    assert [] + "_processed.log" == "_processed.log";
  }
}
