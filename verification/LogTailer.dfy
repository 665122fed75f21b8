// Tailing an append-only log in chunks: whatever the split into reads, the parser is
// handed the non-blank complete lines of the file, up to a trailing carriage return.
module LogTailer {
  import opened Types
  import opened Chars

  // Index of the first newline, or the length when there is none.
  function FirstNewline(s: string): (i: nat)
    ensures i <= |s| && (i < |s| ==> s[i] == '\n')
    ensures forall j :: 0 <= j < i ==> s[j] != '\n'
  {
    if s == "" || s[0] == '\n' then 0 else 1 + FirstNewline(s[1..])
  }

  // ---- what the file says ----------------------------------------------------------------

  // The newline-terminated lines, without their newlines.
  function CompleteLines(s: string): seq<string> {
    var i := FirstNewline(s);
    if i == |s| then [] else [s[..i]] + CompleteLines(s[i + 1..])
  }

  // What follows the last newline.
  function Unfinished(s: string): (r: string)
    ensures '\n' !in r
  {
    var i := FirstNewline(s);
    if i == |s| then s else Unfinished(s[i + 1..])
  }

  predicate IsBlank(line: string) {
    forall i :: 0 <= i < |line| ==> IsWhitespace(line[i])
  }

  // Blank means nothing but white space.
  lemma BlankMeans(a: string, c: char)
    ensures IsBlank("") && (IsBlank(a + [c]) <==> IsBlank(a) && IsWhitespace(c))
  {
    hide IsWhitespace;
    var s := a + [c];
    assert s[|a|] == c && forall i :: 0 <= i < |a| ==> s[i] == a[i];
  }

  function NonBlank(lines: seq<string>): seq<string> {
    if lines == [] then []
    else (if IsBlank(lines[0]) then [] else [lines[0]]) + NonBlank(lines[1..])
  }

  function StripCr(line: string): string {
    if line != "" && line[|line| - 1] == '\r' then line[..|line| - 1] else line
  }

  // Pointwise equal, except that a line may have lost one trailing carriage return.
  predicate UpToCr(handed: seq<string>, lines: seq<string>) {
    |handed| == |lines|
    && forall i :: 0 <= i < |lines| ==> handed[i] == lines[i] || handed[i] == StripCr(lines[i])
  }

  // ---- what the reader does --------------------------------------------------------------

  // `str::lines`: a line ending is "\n" or "\r\n"; an unterminated last line is kept as is.
  function Lines(s: string): seq<string> {
    if s == "" then []
    else
      var i := FirstNewline(s);
      if i == |s| then [s] else [StripCr(s[..i])] + Lines(s[i + 1..])
  }

  // The part of pending text plus chunk that is handed on as lines.
  function Finished(s: string): string {
    if s != "" && s[|s| - 1] == '\n' then s
    else if Unfinished(s) == s then ""
    else UnfinishedIsSuffix(s); s[..|s| - |Unfinished(s)| - 1]
  }

  function Handed(s: string): seq<string> { NonBlank(Lines(Finished(s))) }

  lemma DropTwice(s: string, i: nat, k: nat)
    requires i + k <= |s|
    ensures s[i..][k..] == s[i + k..]
    ensures k > 0 ==> s[i + k - 1] == s[i..][k - 1]
  {
  }

  // Where the unfinished rest starts.
  lemma {:induction false} UnfinishedStart(s: string) returns (k: nat)
    ensures k <= |s| && Unfinished(s) == s[k..] && (k > 0 ==> s[k - 1] == '\n')
  {
    hide FirstNewline;
    var i := FirstNewline(s);
    if i == |s| {
      k := 0;
    } else {
      var rest := UnfinishedStart(s[i + 1..]);
      DropTwice(s, i + 1, rest);
      k := i + 1 + rest;
    }
  }

  lemma UnfinishedIsSuffix(s: string)
    ensures |Unfinished(s)| <= |s| && s[|s| - |Unfinished(s)|..] == Unfinished(s)
    ensures |Unfinished(s)| < |s| ==> s[|s| - |Unfinished(s)| - 1] == '\n'
  {
    hide Unfinished;
    var k := UnfinishedStart(s);
    assert k == |s| - |Unfinished(s)|;
  }

  // Parsing a batch: the first malformed line loses the whole batch.
  function ParseAll<R>(parse: string -> Option<R>, lines: seq<string>): Option<seq<R>> {
    if lines == [] then Some([])
    else
      var first := parse(lines[0]);
      if first.None? then None
      else
        var rest := ParseAll(parse, lines[1..]);
        if rest.None? then None else Some([first.value] + rest.value)
  }

  // A batch parses exactly when every line of it does, and gives one result per line in order.
  lemma {:induction false} ParseAllMeans<R>(parse: string -> Option<R>, lines: seq<string>)
    ensures ParseAll(parse, lines).Some? <==> forall i :: 0 <= i < |lines| ==> parse(lines[i]).Some?
    ensures ParseAll(parse, lines).Some? ==>
      && |ParseAll(parse, lines).value| == |lines|
      && forall i :: 0 <= i < |lines| ==> parse(lines[i]) == Some(ParseAll(parse, lines).value[i])
  {
    if lines != [] {
      ParseAllMeans(parse, lines[1..]);
      assert forall i :: 1 <= i < |lines| ==> lines[i] == lines[1..][i - 1];
    }
  }

  // The lines with their newlines and what follows them are the text again.
  function Rejoined(lines: seq<string>, rest: string): string {
    if lines == [] then rest else lines[0] + "\n" + Rejoined(lines[1..], rest)
  }

  lemma {:induction false} LinesRejoin(s: string)
    ensures Rejoined(CompleteLines(s), Unfinished(s)) == s
    ensures forall i :: 0 <= i < |CompleteLines(s)| ==> '\n' !in CompleteLines(s)[i]
    decreases |s|
  {
    hide FirstNewline;
    var i := FirstNewline(s);
    if i < |s| {
      var lines := CompleteLines(s[i + 1..]);
      LinesRejoin(s[i + 1..]);
      assert ([s[..i]] + lines)[1..] == lines;
      CutAt(s, i);
      assert [s[i]] == "\n";
    }
  }

  // Only a trailing carriage return is ever removed, and only one.
  lemma StripCrMeans(line: string)
    ensures StripCr(line + "\r") == line
    ensures line == "" || line[|line| - 1] != '\r' ==> StripCr(line) == line
  {
    assert (line + "\r")[..|line|] == line;
  }

  lemma ParseNothing<R>(parse: string -> Option<R>)
    ensures ParseAll(parse, []) == Some([])
  {
  }

  lemma NothingToHand()
    ensures NonBlank(Lines("")) == []
  {
  }

  // The file cannot be opened or measured, or opens but cannot be read as text.
  datatype Fault = NoFault | OpenFails | ReadFails

  class LogReader {
    var offset: nat
    var pending: string

    ghost predicate Valid()
      reads this
    {
      '\n' !in pending
    }

    constructor ()
      ensures Valid() && offset == 0 && pending == ""
    {
      offset, pending := 0, "";
    }

    // file is None when it does not exist. The batch is what goes to the parser.
    method ReadNewEvents<R>(file: Option<string>, fault: Fault, parse: string -> Option<R>)
      returns (batch: seq<string>, result: Option<seq<R>>)
      requires Valid()
      modifies this
      ensures Valid()
      ensures file.None? ==> unchanged(this) && batch == [] && result == Some([])
      ensures file.Some? && fault.OpenFails? ==> unchanged(this) && batch == [] && result == None
      ensures file.Some? && !fault.OpenFails? ==>
        var shrunk := |file.value| < old(offset);
        var from, kept := if shrunk then 0 else old(offset), if shrunk then "" else old(pending);
        if fault.ReadFails? then offset == from && pending == kept && batch == [] && result == None
        else
          && offset == |file.value|
          && pending == Unfinished(kept + file.value[from..])
          && batch == (if from == |file.value| then [] else Handed(kept + file.value[from..]))
          && result == ParseAll(parse, batch)
    {
      hide Unfinished, NonBlank, Lines, ParseAll;
      if file.None? {
        return [], Some([]);
      }
      if fault.OpenFails? {
        return [], None;
      }
      ParseNothing(parse);
      if |file.value| < offset {
        offset, pending := 0, "";
      }
      if fault.ReadFails? {
        return [], None;
      }
      var chunk := file.value[offset..];
      offset := |file.value|;
      NoNewlineUnfinished(pending);
      assert chunk == "" ==> pending + chunk == pending;
      if chunk == "" {
        return [], Some([]);
      }
      var combined := pending + chunk;
      pending := "";
      UnfinishedIsSuffix(combined);
      var complete: string;
      if combined[|combined| - 1] == '\n' {
        EndsFinished(combined);
        complete := combined;
      } else {
        var cut := LastNewline(combined);
        if cut.Some? {
          pending := combined[cut.value + 1..];
          complete := combined[..cut.value];
        } else {
          pending := combined;
          NothingToHand();
          return [], Some([]);
        }
      }
      batch := NonBlank(Lines(complete));
      result := ParseAll(parse, batch);
    }
  }

  // `rsplit_once`: where the last newline is.
  method LastNewline(s: string) returns (cut: Option<nat>)
    ensures cut.None? <==> Unfinished(s) == s
    ensures cut.Some? ==> cut.value < |s| && s[cut.value + 1..] == Unfinished(s)
    ensures cut.Some? ==> cut.value == |s| - |Unfinished(s)| - 1
  {
    var i := |s|;
    while i > 0 && s[i - 1] != '\n'
      invariant 0 <= i <= |s| && '\n' !in s[i..]
    {
      i := i - 1;
    }
    if i == 0 {
      assert s[0..] == s;
      NoNewlineUnfinished(s);
      return None;
    }
    UnfinishedAfter(s[..i - 1], s[i..]);
    assert s == s[..i - 1] + "\n" + s[i..];
    return Some(i - 1);
  }

  lemma NoNewlineUnfinished(s: string)
    requires '\n' !in s
    ensures Unfinished(s) == s && CompleteLines(s) == []
  {
    assert FirstNewline(s) == |s|;
  }

  lemma {:induction false} UnfinishedAfter(a: string, b: string)
    requires '\n' !in b
    ensures Unfinished(a + "\n" + b) == b
    decreases |a|
  {
    hide FirstNewline;
    var s := a + "\n" + b;
    var i := FirstNewline(s);
    assert s[|a|] == '\n';
    if i == |a| {
      assert s[i + 1..] == b;
      NoNewlineUnfinished(b);
    } else {
      assert s[i + 1..] == a[i + 1..] + "\n" + b;
      UnfinishedAfter(a[i + 1..], b);
    }
  }

  lemma EndsFinished(s: string)
    requires s != "" && s[|s| - 1] == '\n'
    ensures Unfinished(s) == ""
  {
    assert s == s[..|s| - 1] + "\n" + "";
    UnfinishedAfter(s[..|s| - 1], "");
  }

  // ---- chunks add up ---------------------------------------------------------------------

  // Lines and rest of a longer file, from the rest of the shorter one.
  lemma {:induction false} Appended(a: string, b: string)
    ensures CompleteLines(a + b) == CompleteLines(a) + CompleteLines(Unfinished(a) + b)
    ensures Unfinished(a + b) == Unfinished(Unfinished(a) + b)
    decreases |a|
  {
    hide FirstNewline;
    var i := FirstNewline(a);
    if i < |a| {
      var after, rest := a[i + 1..], Unfinished(a) + b;
      FirstNewlineAppend(a, b);
      SliceFront(a, b, i);
      Appended(after, b);
      Reassociate([a[..i]], CompleteLines(after), CompleteLines(rest));
    } else {
      assert [] + CompleteLines(a + b) == CompleteLines(a + b);
    }
  }

  lemma SliceFront(a: string, b: string, i: nat)
    requires i < |a|
    ensures (a + b)[i + 1..] == a[i + 1..] + b && (a + b)[..i] == a[..i]
  {
  }

  lemma Reassociate<T>(x: seq<T>, y: seq<T>, z: seq<T>)
    ensures x + (y + z) == (x + y) + z
  {
  }

  lemma FirstNewlineAppend(a: string, b: string)
    requires FirstNewline(a) < |a|
    ensures FirstNewline(a + b) == FirstNewline(a)
  {
    var i, k := FirstNewline(a), FirstNewline(a + b);
    assert (a + b)[i] == '\n';
    if k < i {
      assert (a + b)[k] == a[k];
    }
  }

  lemma {:induction false} NonBlankAppend(xs: seq<string>, ys: seq<string>)
    ensures NonBlank(xs + ys) == NonBlank(xs) + NonBlank(ys)
  {
    hide IsBlank;
    if xs == [] {
      assert xs + ys == ys;
    } else {
      NonBlankAppend(xs[1..], ys);
      assert (xs + ys)[1..] == xs[1..] + ys;
      Reassociate(if IsBlank(xs[0]) then [] else [xs[0]], NonBlank(xs[1..]), NonBlank(ys));
    }
  }

  lemma BlankUpToCr(line: string)
    ensures IsBlank(StripCr(line)) <==> IsBlank(line)
  {
    if IsBlank(StripCr(line)) && line != StripCr(line) {
      assert line == StripCr(line) + "\r";
    }
  }

  // The lines with trailing carriage returns removed, except perhaps from the last one.
  function Stripped(lines: seq<string>, keepLast: bool): seq<string> {
    if lines == [] then []
    else [if keepLast && |lines| == 1 then lines[0] else StripCr(lines[0])] + Stripped(lines[1..], keepLast)
  }

  lemma NonBlankCons(x: string, xs: seq<string>)
    ensures NonBlank([x] + xs) == (if IsBlank(x) then [] else [x]) + NonBlank(xs)
  {
    assert ([x] + xs)[1..] == xs;
  }

  lemma StrippedCons(x: string, xs: seq<string>, keepLast: bool)
    requires keepLast ==> xs != []
    ensures Stripped([x] + xs, keepLast) == [StripCr(x)] + Stripped(xs, keepLast)
  {
    assert ([x] + xs)[1..] == xs;
  }

  // Text without its final newline: the last line keeps its carriage return.
  lemma {:induction false} HeadLines(h: string)
    ensures CompleteLines(h + "\n") != []
    ensures NonBlank(Lines(h)) == NonBlank(Stripped(CompleteLines(h + "\n"), true))
    decreases |h|
  {
    hide FirstNewline, StripCr, IsBlank, NonBlank, Stripped;
    var s := h + "\n";
    var i := FirstNewline(s);
    assert s[|h|] == '\n';
    if i == |h| {
      assert s[..i] == h && s[i + 1..] == "";
      LastHeadLine(h);
    } else {
      FirstNewlineOf(h, i);
      assert s[..i] == h[..i] && s[i + 1..] == h[i + 1..] + "\n";
      HeadLines(h[i + 1..]);
      var rest := CompleteLines(h[i + 1..] + "\n");
      StrippedCons(h[..i], rest, true);
      NonBlankCons(StripCr(h[..i]), Lines(h[i + 1..]));
      NonBlankCons(StripCr(h[..i]), Stripped(rest, true));
    }
  }

  lemma LastHeadLine(h: string)
    requires FirstNewline(h + "\n") == |h|
    ensures CompleteLines(h + "\n") == [h]
    ensures NonBlank(Lines(h)) == NonBlank(Stripped([h], true))
  {
    hide FirstNewline, NonBlank, StripCr, IsBlank;
    var s := h + "\n";
    assert '\n' !in h by { assert forall j :: 0 <= j < |h| ==> h[j] == s[j]; }
    OneLine(h);
    LinesOfLine(h);
    assert Stripped([h], true) == [h] + Stripped([h][1..], true) == [h];
    if h == "" {
      BlankLine();
    }
  }

  // A line and its newline.
  lemma OneLine(line: string)
    requires '\n' !in line
    ensures CompleteLines(line + "\n") == [line]
  {
    hide FirstNewline;
    var s := line + "\n";
    NewlineAfter(line);
    assert s[..|line|] == line && s[|line| + 1..] == "";
    assert CompleteLines(s) == [line] + CompleteLines("");
    NoNewlineUnfinished("");
  }

  lemma NewlineAfter(line: string)
    requires '\n' !in line
    ensures FirstNewline(line + "\n") == |line| == FirstNewline(line)
  {
    assert (line + "\n")[|line|] == '\n';
    assert forall j :: 0 <= j < |line| ==> (line + "\n")[j] == line[j];
  }

  lemma LinesOfLine(h: string)
    requires '\n' !in h
    ensures Lines(h) == if h == "" then [] else [h]
  {
    NewlineAfter(h);
  }

  lemma BlankLine()
    ensures NonBlank([]) == NonBlank([""]) == []
  {
    NonBlankCons("", []);
    assert [""] + [] == [""];
  }

  lemma FirstNewlineOf(h: string, i: nat)
    requires i < |h| && FirstNewline(h + "\n") == i
    ensures FirstNewline(h) == i
  {
    assert (h + "\n")[i] == h[i];
    assert forall j :: 0 <= j < i ==> (h + "\n")[j] == h[j];
  }

  lemma {:induction false} WholeLines(s: string)
    requires Unfinished(s) == ""
    ensures NonBlank(Lines(s)) == NonBlank(Stripped(CompleteLines(s), false))
    decreases |s|
  {
    hide StripCr, IsBlank, NonBlank, Stripped;
    if s == "" {
      NothingToHand();
      NothingStripped();
    } else {
      var i := FirstNewline(s);
      if i < |s| {
        WholeLines(s[i + 1..]);
        var rest := CompleteLines(s[i + 1..]);
        StrippedCons(s[..i], rest, false);
        NonBlankCons(StripCr(s[..i]), Lines(s[i + 1..]));
        NonBlankCons(StripCr(s[..i]), Stripped(rest, false));
      }
    }
  }

  lemma NothingStripped()
    ensures NonBlank(Stripped([], false)) == NonBlank([]) == []
  {
  }

  lemma {:induction false} StrippedUpToCr(lines: seq<string>, keepLast: bool)
    ensures UpToCr(NonBlank(Stripped(lines, keepLast)), NonBlank(lines))
  {
    hide IsBlank, StripCr, NonBlank, UpToCr;
    if lines == [] {
      NothingUpToCr();
    } else {
      var x, xs := lines[0], lines[1..];
      var y := if keepLast && |lines| == 1 then x else StripCr(x);
      assert lines == [x] + xs;
      StrippedUpToCr(xs, keepLast);
      BlankUpToCr(x);
      NonBlankCons(x, xs);
      NonBlankCons(y, Stripped(xs, keepLast));
      UpToCrAppend(if IsBlank(y) then [] else [y], if IsBlank(x) then [] else [x],
        NonBlank(Stripped(xs, keepLast)), NonBlank(xs));
    }
  }

  lemma NothingUpToCr()
    ensures UpToCr(NonBlank([]), NonBlank([]))
  {
  }

  lemma UpToCrAppend(a: seq<string>, b: seq<string>, c: seq<string>, d: seq<string>)
    requires |a| == |b| <= 1 && (a != [] ==> a[0] == b[0] || a[0] == StripCr(b[0])) && UpToCr(c, d)
    ensures UpToCr(a + c, b + d)
  {
    hide StripCr;
  }

  // The i-th line would lose its carriage return.
  predicate LosesCr(lines: seq<string>, keepLast: bool, i: nat)
    requires i < |lines|
  {
    !IsBlank(lines[i]) && StripCr(lines[i]) != lines[i] && !(keepLast && i == |lines| - 1)
  }

  lemma {:induction false} StrippedExactIff(lines: seq<string>, keepLast: bool)
    ensures NonBlank(Stripped(lines, keepLast)) == NonBlank(lines)
       <==> forall i :: 0 <= i < |lines| ==> !LosesCr(lines, keepLast, i)
  {
    hide IsBlank, StripCr, NonBlank, LosesCr;
    if lines == [] {
      assert Stripped(lines, keepLast) == lines;
    } else {
      var x, xs := lines[0], lines[1..];
      assert lines == [x] + xs;
      StrippedExactIff(xs, keepLast);
      LosesCrCons(x, xs, keepLast);
      var y := if keepLast && |lines| == 1 then x else StripCr(x);
      NonBlankCons(x, xs);
      NonBlankCons(y, Stripped(xs, keepLast));
      StrippedFirst(x, y, xs, keepLast);
    }
  }

  lemma StrippedFirst(x: string, y: string, xs: seq<string>, keepLast: bool)
    requires y == if keepLast && |[x] + xs| == 1 then x else StripCr(x)
    ensures (if IsBlank(y) then [] else [y]) + NonBlank(Stripped(xs, keepLast)) == (if IsBlank(x) then [] else [x]) + NonBlank(xs)
       <==> !LosesCr([x] + xs, keepLast, 0) && NonBlank(Stripped(xs, keepLast)) == NonBlank(xs)
  {
    hide IsBlank, StripCr, NonBlank, Stripped;
    BlankUpToCr(x);
    SameFront(if IsBlank(y) then [] else [y], NonBlank(Stripped(xs, keepLast)), if IsBlank(x) then [] else [x], NonBlank(xs));
  }

  lemma LosesCrCons(x: string, xs: seq<string>, keepLast: bool)
    ensures (exists i :: 0 <= i < |xs| + 1 && LosesCr([x] + xs, keepLast, i))
       <==> LosesCr([x] + xs, keepLast, 0) || exists i :: 0 <= i < |xs| && LosesCr(xs, keepLast, i)
  {
    hide IsBlank, StripCr;
    var all := [x] + xs;
    assert forall i :: 0 <= i < |xs| ==> all[i + 1] == xs[i];
    if i :| 0 <= i < |xs| && LosesCr(xs, keepLast, i) {
      assert LosesCr(all, keepLast, i + 1);
    }
    if i :| 1 <= i < |all| && LosesCr(all, keepLast, i) {
      assert LosesCr(xs, keepLast, i - 1);
    }
  }

  lemma LinesBeforeRest(h: string, rest: string)
    requires '\n' !in rest
    ensures CompleteLines(h + "\n" + rest) == CompleteLines(h + "\n")
  {
    hide CompleteLines, Unfinished;
    Appended(h + "\n", rest);
    EndsFinished(h + "\n");
    assert "" + rest == rest;
    NoNewlineUnfinished(rest);
  }

  lemma SplitAtRest(s: string)
    requires Unfinished(s) != s && (s == "" || s[|s| - 1] != '\n')
    ensures s == Finished(s) + "\n" + Unfinished(s)
  {
    hide Unfinished;
    UnfinishedIsSuffix(s);
    var k := |s| - |Unfinished(s)| - 1;
    CutAt(s, k);
    assert [s[k]] == "\n";
  }

  lemma CutAt(s: string, k: nat)
    requires k < |s|
    ensures s == s[..k] + [s[k]] + s[k + 1..]
  {
  }

  // The text goes on after its last newline.
  predicate GoesOn(s: string) { s != "" && s[|s| - 1] != '\n' }

  // What is handed over, line by line.
  lemma BatchIsStripped(s: string)
    ensures Handed(s) == NonBlank(Stripped(CompleteLines(s), GoesOn(s)))
  {
    hide CompleteLines, Unfinished, NonBlank, Lines, Stripped;
    if s != "" && s[|s| - 1] == '\n' {
      EndsFinished(s);
      WholeLines(s);
    } else if Unfinished(s) == s {
      NoNewlineUnfinished(s);
      NothingHanded(GoesOn(s));
    } else {
      SplitAtRest(s);
      LinesBeforeRest(Finished(s), Unfinished(s));
      HeadLines(Finished(s));
      NotEmptyGoesOn(s);
    }
  }

  lemma NotEmptyGoesOn(s: string)
    requires Unfinished(s) != s && (s == "" || s[|s| - 1] != '\n')
    ensures GoesOn(s)
  {
  }

  lemma NothingHanded(keepLast: bool)
    ensures NonBlank(Lines("")) == NonBlank(Stripped([], keepLast))
  {
  }

  // One batch is the non-blank complete lines of pending text plus chunk.
  lemma BatchIsLines(s: string)
    ensures UpToCr(Handed(s), NonBlank(CompleteLines(s)))
  {
    hide CompleteLines, NonBlank, Stripped, UpToCr, Handed;
    BatchIsStripped(s);
    StrippedUpToCr(CompleteLines(s), GoesOn(s));
  }

  // No non-blank complete line of s ends in a carriage return, except the last one if the
  // text goes on after it.
  predicate CrSafe(s: string) {
    var lines := CompleteLines(s);
    forall i :: 0 <= i < |lines| && !IsBlank(lines[i]) && lines[i][|lines[i]| - 1] == '\r' ==>
      i == |lines| - 1 && GoesOn(s)
  }

  // That is exactly when a batch agrees with the file to the letter.
  lemma ExactIffCrSafe(s: string)
    ensures Handed(s) == NonBlank(CompleteLines(s)) <==> CrSafe(s)
  {
    hide NonBlank, Stripped, Handed, CompleteLines, GoesOn;
    var lines := CompleteLines(s);
    BatchIsStripped(s);
    StrippedExactIff(lines, GoesOn(s));
    assert forall i :: 0 <= i < |lines| && !IsBlank(lines[i]) ==>
      (LosesCr(lines, GoesOn(s), i) <==> lines[i][|lines[i]| - 1] == '\r' && !(GoesOn(s) && i == |lines| - 1));
  }

  // One look at the file: what it held, and whether reading it worked.
  datatype Look = Look(file: string, fault: Fault)

  // What was read of the file so far.
  function SeenAfter(looks: seq<Look>): string {
    if looks == [] then ""
    else if looks[|looks| - 1].fault.NoFault? then looks[|looks| - 1].file
    else SeenAfter(looks[..|looks| - 1])
  }

  // The texts the batches are cut from: what was unfinished, and what a look added to it.
  function Texts(looks: seq<Look>): seq<string> {
    if looks == [] then []
    else
      var before, last := looks[..|looks| - 1], looks[|looks| - 1];
      var seen := SeenAfter(before);
      if last.fault.NoFault? && |seen| < |last.file|
      then Texts(before) + [Unfinished(seen) + last.file[|seen|..]] else Texts(before)
  }

  predicate AllCrSafe(texts: seq<string>) {
    forall i :: 0 <= i < |texts| ==> CrSafe(texts[i])
  }

  lemma AllCrSafeSnoc(texts: seq<string>, text: string)
    ensures AllCrSafe(texts + [text]) <==> AllCrSafe(texts) && CrSafe(text)
  {
    hide CrSafe;
    var all := texts + [text];
    assert all[|texts|] == text;
    assert forall i :: 0 <= i < |texts| ==> all[i] == texts[i];
  }

  // Following an append-only log through any sequence of looks, some of which fail.
  method Follow(looks: seq<Look>) returns (handed: seq<string>, pending: string)
    requires forall i, j :: 0 <= i <= j < |looks| ==> looks[i].file <= looks[j].file
    ensures UpToCr(handed, NonBlank(CompleteLines(SeenAfter(looks))))
    ensures handed == NonBlank(CompleteLines(SeenAfter(looks))) <==> AllCrSafe(Texts(looks))
    ensures pending == Unfinished(SeenAfter(looks))
  {
    hide CompleteLines, Unfinished, NonBlank, Handed, UpToCr, ParseAll, CrSafe, AllCrSafe;
    var reader := new LogReader();
    handed := [];
    FollowStart();
    for k := 0 to |looks|
      invariant reader.Valid() && fresh(reader)
      invariant var seen := SeenAfter(looks[..k]);
        && reader.offset == |seen| && reader.pending == Unfinished(seen)
        && (forall j :: k <= j < |looks| ==> seen <= looks[j].file)
        && UpToCr(handed, NonBlank(CompleteLines(seen)))
        && (handed == NonBlank(CompleteLines(seen)) <==> AllCrSafe(Texts(looks[..k])))
    {
      var batch, _ := reader.ReadNewEvents(Some(looks[k].file), looks[k].fault, l => Some(l));
      ghost var seen := SeenAfter(looks[..k]);
      assert looks[..k + 1][..k] == looks[..k];
      if looks[k].fault.NoFault? {
        ghost var chunk := looks[k].file[|seen|..];
        FollowStep(seen, chunk, handed);
        AllCrSafeSnoc(Texts(looks[..k]), Unfinished(seen) + chunk);
        assert looks[k].file == seen + chunk;
        handed := handed + batch;
      }
    }
    assert looks[..|looks|] == looks;
    pending := reader.pending;
  }

  lemma FollowStart()
    ensures UpToCr([], NonBlank(CompleteLines(""))) && Unfinished("") == "" && NonBlank(CompleteLines("")) == []
    ensures AllCrSafe([])
  {
  }

  lemma FollowStep(seen: string, chunk: string, handed: seq<string>)
    requires UpToCr(handed, NonBlank(CompleteLines(seen)))
    ensures Unfinished(seen + chunk) == Unfinished(Unfinished(seen) + chunk)
    ensures var batch := if chunk == "" then [] else Handed(Unfinished(seen) + chunk);
      && UpToCr(handed + batch, NonBlank(CompleteLines(seen + chunk)))
      && (handed + batch == NonBlank(CompleteLines(seen + chunk)) <==>
            handed == NonBlank(CompleteLines(seen)) && (chunk != "" ==> CrSafe(Unfinished(seen) + chunk)))
  {
    hide CompleteLines, Unfinished, NonBlank, Handed, CrSafe;
    var text := Unfinished(seen) + chunk;
    Appended(seen, chunk);
    BatchIsLines(text);
    ExactIffCrSafe(text);
    NonBlankAppend(CompleteLines(seen), CompleteLines(text));
    if chunk == "" {
      assert seen + chunk == seen;
    } else {
      SameFront(handed, Handed(text), NonBlank(CompleteLines(seen)), NonBlank(CompleteLines(text)));
    }
  }

  lemma SameFront(a: seq<string>, b: seq<string>, c: seq<string>, d: seq<string>)
    requires |a| == |c|
    ensures a + b == c + d <==> a == c && b == d
  {
    if a + b == c + d {
      assert a == (a + b)[..|a|] && b == (a + b)[|a|..];
      assert c == (c + d)[..|a|] && d == (c + d)[|a|..];
    }
  }

  // The same line is handed over without its carriage return when the read stops at the
  // newline, and with it when the read goes further, whatever complete lines come before.
  lemma CrDependsOnSplit(front: string, line: string, c: char)
    requires Unfinished(front) == "" && CrSafe(front)
    requires '\n' !in line && !IsBlank(line) && line[|line| - 1] == '\r' && c != '\n'
    ensures Handed(front + line + "\n") != NonBlank(CompleteLines(front + line + "\n"))
    ensures Handed(front + line + "\n" + [c]) == NonBlank(CompleteLines(front + line + "\n"))
  {
    hide NonBlank, Handed, IsBlank, CompleteLines, Unfinished;
    var s := front + line + "\n";
    ExactIffCrSafe(s);
    ExactIffCrSafe(s + [c]);
    LinesBeforeRest(front + line, [c]);
    LastLine(front, line);
    var lines := CompleteLines(s);
    assert lines[|lines| - 1] == line && !GoesOn(s);
    assert !CrSafe(s);
    EmptyRest(front);
    assert GoesOn(s + [c]);
    assert forall i :: 0 <= i < |lines| - 1 ==> lines[i] == CompleteLines(front)[i];
    assert CrSafe(s + [c]);
  }

  lemma EmptyRest(s: string)
    requires Unfinished(s) == ""
    ensures !GoesOn(s)
  {
    hide Unfinished;
    UnfinishedIsSuffix(s);
  }

  lemma LastLine(front: string, line: string)
    requires Unfinished(front) == "" && '\n' !in line
    ensures CompleteLines(front + line + "\n") == CompleteLines(front) + [line]
  {
    hide CompleteLines, Unfinished;
    Appended(front, line + "\n");
    Reassociate(front, line, "\n");
    assert "" + (line + "\n") == line + "\n";
    OneLine(line);
  }
}
