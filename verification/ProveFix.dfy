// The commands of a fix-validation workflow, printed for the user to paste into a shell: the
// baseline recordings, the tuning run, and the final comparison with placeholders to fill in.
module ProveFix {
  import opened Types
  import opened Chars
  import opened ShellQuote

  datatype Input = Input(
    planPath: string, profiles: string, treePid: u32, scenario: Option<string>, workload: Option<string>,
    route: Option<string>, seconds: u64, baselineRuns: Option<nat>, testRuns: Option<nat>,
    baselineProfile: string, html: string)

  datatype FixPlan = FixPlan(id: string, scenario: Option<string>, baselineRuns: nat, testRuns: nat)

  datatype Workflow = Workflow(baselines: seq<string>, tune: string, validate: string)

  // ---- labels ----------------------------------------------------------------------------

  function TrimStart(s: string): (r: string)
    ensures |r| <= |s| && (r != "" ==> !IsWhitespace(r[0]))
  {
    if s != "" && IsWhitespace(s[0]) then TrimStart(s[1..]) else s
  }

  function TrimEnd(s: string): (r: string)
    ensures r <= s && (r != "" ==> !IsWhitespace(r[|r| - 1]))
  {
    if s != "" && IsWhitespace(s[|s| - 1]) then TrimEnd(s[..|s| - 1]) else s
  }

  // A label without surrounding white space; a blank one counts as absent.
  function Normalized(value: Option<string>): (r: Option<string>)
    ensures r.Some? ==> r.value != "" && !IsWhitespace(r.value[0]) && !IsWhitespace(r.value[|r.value| - 1])
  {
    if value.Some? && TrimEnd(TrimStart(value.value)) != "" then Some(TrimEnd(TrimStart(value.value))) else None
  }

  predicate AllWhitespace(s: string) {
    forall i :: 0 <= i < |s| ==> IsWhitespace(s[i])
  }

  lemma {:induction false} TrimStartMeans(s: string) returns (left: string)
    ensures s == left + TrimStart(s) && AllWhitespace(left)
  {
    hide IsWhitespace;
    left := "";
    if s != "" && IsWhitespace(s[0]) {
      var rest := TrimStartMeans(s[1..]);
      left := [s[0]] + rest;
      assert s == [s[0]] + s[1..];
    }
  }

  lemma {:induction false} TrimEndMeans(s: string) returns (right: string)
    ensures s == TrimEnd(s) + right && AllWhitespace(right)
  {
    hide IsWhitespace;
    right := "";
    if s != "" && IsWhitespace(s[|s| - 1]) {
      var rest := TrimEndMeans(s[..|s| - 1]);
      right := rest + [s[|s| - 1]];
      assert s == s[..|s| - 1] + [s[|s| - 1]];
    }
  }

  // A label is the stretch of the text between surrounding white space, if anything is left.
  lemma NormalizedMeans(value: string) returns (left: string, right: string)
    ensures AllWhitespace(left) && AllWhitespace(right)
    ensures Normalized(Some(value)).Some? ==> value == left + Normalized(Some(value)).value + right
    ensures Normalized(Some(value)).None? <==> AllWhitespace(value)
  {
    hide IsWhitespace;
    left := TrimStartMeans(value);
    right := TrimEndMeans(TrimStart(value));
    var core := TrimEnd(TrimStart(value));
    assert value == left + (core + right) == left + core + right;
    if core != "" {
      assert value[|left|] == core[0];
    }
  }

  predicate IsScenarioName(name: string) {
    0 < |name| <= 64 && forall i :: 0 <= i < |name| ==> IsAlphanumeric(name[i]) || name[i] == '_' || name[i] == '-'
  }

  // Lower-case letters, digits and single dashes that neither lead nor trail.
  predicate IsRunLabel(s: string) {
    && Dashable(s)
    && (s != "" ==> s[0] != '-' && s[|s| - 1] != '-')
    && forall i :: 0 <= i < |s| - 1 ==> s[i] != '-' || s[i + 1] != '-'
  }

  predicate Dashable(s: string) {
    forall i :: 0 <= i < |s| ==> IsLabelChar(s[i])
  }

  predicate IsLabelChar(c: char) { '0' <= c <= '9' || 'a' <= c <= 'z' || c == '-' }

  function Lower(c: char): char {
    if 'A' <= c <= 'Z' then c - 'A' + 'a' else c
  }

  // Runs of other characters become one dash each; dash: the output so far ends in one.
  function Dashed(s: string, dash: bool): string {
    if s == "" then ""
    else if IsAlphanumeric(s[0]) then [Lower(s[0])] + Dashed(s[1..], false)
    else if dash then Dashed(s[1..], true)
    else "-" + Dashed(s[1..], true)
  }

  // No two dashes in a row, and none first if `dash` says so.
  predicate SingleDashes(s: string, dash: bool) {
    && Dashable(s)
    && (dash && s != "" ==> s[0] != '-')
    && forall i :: 0 <= i < |s| - 1 ==> s[i] != '-' || s[i + 1] != '-'
  }

  lemma {:induction false} DashedIsSingle(s: string, dash: bool)
    ensures SingleDashes(Dashed(s, dash), dash)
  {
    if s != "" {
      DashedIsSingle(s[1..], !IsAlphanumeric(s[0]));
    }
  }

  function TrimDashes(s: string): (r: string) {
    if s != "" && s[0] == '-' then TrimDashes(s[1..])
    else if s != "" && s[|s| - 1] == '-' then TrimDashes(s[..|s| - 1])
    else s
  }

  lemma {:induction false} TrimDashesMakesLabel(s: string)
    requires SingleDashes(s, false)
    ensures IsRunLabel(TrimDashes(s))
    decreases |s|
  {
    if s != "" && s[0] == '-' {
      TrimDashesMakesLabel(s[1..]);
    } else if s != "" && s[|s| - 1] == '-' {
      TrimDashesMakesLabel(s[..|s| - 1]);
    }
  }

  function Sanitized(value: string): string { TrimDashes(Dashed(value, false)) }

  lemma SanitizedIsLabel(value: string)
    ensures IsRunLabel(Sanitized(value))
  {
    DashedIsSingle(value, false);
    TrimDashesMakesLabel(Dashed(value, false));
  }

  lemma {:induction false} DashedKeeps(s: string, dash: bool)
    requires SingleDashes(s, dash)
    ensures Dashed(s, dash) == s
  {
    if s != "" {
      DashedKeeps(s[1..], s[0] == '-');
      assert s == [s[0]] + s[1..];
    }
  }

  // A label is left as it is, so sanitising twice is sanitising once.
  lemma SanitizedKeepsLabels(value: string)
    requires IsRunLabel(value)
    ensures Sanitized(value) == value
  {
    DashedKeeps(value, false);
  }

  method SanitizeRunLabel(value: string) returns (r: string)
    ensures r == Sanitized(value) && IsRunLabel(r)
  {
    hide TrimDashes, IsRunLabel, Lower;
    var out, previousDash := "", false;
    for i := 0 to |value|
      invariant out + Dashed(value[i..], previousDash) == Dashed(value, false)
    {
      var rest, next := value[i..], value[i + 1..];
      assert rest[0] == value[i] && rest[1..] == next;
      if IsAlphanumeric(value[i]) {
        Shift(out, [Lower(value[i])], Dashed(next, false));
        out, previousDash := out + [Lower(value[i])], false;
      } else if !previousDash {
        Shift(out, "-", Dashed(next, true));
        out, previousDash := out + "-", true;
      }
    }
    assert value[|value|..] == "" && out + "" == out;
    SanitizedIsLabel(value);
    r := TrimDashes(out);
  }

  lemma Shift(a: string, b: string, c: string)
    ensures a + (b + c) == (a + b) + c
  {
  }

  // What follows the last colon.
  function AfterColon(s: string): string {
    if s == "" || s[|s| - 1] == ':' then "" else AfterColon(s[..|s| - 1]) + [s[|s| - 1]]
  }

  function RunPrefix(scenario: Option<string>, planId: string): string {
    var named := if scenario.Some? then Sanitized(scenario.value) else "";
    if named != "" then named
    else
      var suffix := Sanitized(AfterColon(planId));
      "fix-" + (if suffix != "" then suffix else "fix-validation")
  }

  // The letters and digits of a text, in lower case.
  function Letters(s: string): string {
    if s == "" then "" else Letter(s[0]) + Letters(s[1..])
  }

  function Letter(c: char): string { if IsAlphanumeric(c) then [Lower(c)] else "" }

  lemma LettersCons(c: char, s: string)
    ensures Letters([c] + s) == Letter(c) + Letters(s)
  {
    hide Letter;
    assert ([c] + s)[1..] == s;
  }

  lemma {:induction false} LettersAppend(a: string, b: string)
    ensures Letters(a + b) == Letters(a) + Letters(b)
  {
    hide Letter;
    if a == "" {
      assert a + b == b;
    } else {
      LettersAppend(a[1..], b);
      assert a + b == [a[0]] + (a[1..] + b);
      LettersCons(a[0], a[1..] + b);
      Shift(Letter(a[0]), Letters(a[1..]), Letters(b));
    }
  }

  lemma LetterMeans(c: char)
    ensures IsAlphanumeric(c) ==> Letter(Lower(c)) == Letter(c) == [Lower(c)]
    ensures !IsAlphanumeric(c) ==> Letter(c) == ""
    ensures Letter('-') == ""
  {
  }

  lemma {:induction false} DashedLetters(s: string, dash: bool)
    ensures Letters(Dashed(s, dash)) == Letters(s)
  {
    hide Letter, Lower, IsAlphanumeric, Letters;
    if s == "" {
      assert Dashed(s, dash) == s;
    } else {
      var other := !IsAlphanumeric(s[0]);
      var rest := Dashed(s[1..], other);
      DashedLetters(s[1..], other);
      LetterMeans(s[0]);
      LettersCons(s[0], s[1..]);
      assert s == [s[0]] + s[1..];
      LettersCons(if other then '-' else Lower(s[0]), rest);
      assert "" + Letters(rest) == Letters(rest);
    }
  }

  lemma {:induction false} TrimLetters(s: string)
    ensures Letters(TrimDashes(s)) == Letters(s)
    decreases |s|
  {
    if s != "" && s[0] == '-' {
      TrimLetters(s[1..]);
    } else if s != "" && s[|s| - 1] == '-' {
      TrimLetters(s[..|s| - 1]);
      assert s == s[..|s| - 1] + "-";
      LettersAppend(s[..|s| - 1], "-");
    }
  }

  // Sanitising keeps every letter and digit in order, up to case.
  lemma SanitizedLetters(value: string)
    ensures Letters(Sanitized(value)) == Letters(value)
  {
    DashedLetters(value, false);
    TrimLetters(Dashed(value, false));
  }

  // The part after the last colon has none, and the text up to it ends in one or is empty.
  lemma {:induction false} AfterColonMeans(s: string) returns (front: string)
    ensures s == front + AfterColon(s) && ':' !in AfterColon(s)
    ensures front != "" ==> front[|front| - 1] == ':'
  {
    if s == "" || s[|s| - 1] == ':' {
      front := s;
      assert s + "" == s;
    } else {
      front := AfterColonMeans(s[..|s| - 1]);
      assert s == s[..|s| - 1] + [s[|s| - 1]];
    }
  }

  // A scenario with a letter or digit names the runs; otherwise the plan does, after "fix-".
  lemma RunPrefixMeans(scenario: Option<string>, planId: string)
    ensures scenario.Some? && Letters(scenario.value) != "" ==> RunPrefix(scenario, planId) == Sanitized(scenario.value)
    ensures scenario.None? && Letters(AfterColon(planId)) != "" ==>
      RunPrefix(scenario, planId) == "fix-" + Sanitized(AfterColon(planId))
    ensures scenario.Some? && IsRunLabel(scenario.value) && scenario.value != "" ==>
      RunPrefix(scenario, planId) == scenario.value
  {
    hide Sanitized, AfterColon, IsRunLabel;
    SanitizedLetters(AfterColon(planId));
    if scenario.Some? {
      SanitizedLetters(scenario.value);
      if IsRunLabel(scenario.value) {
        SanitizedKeepsLabels(scenario.value);
      }
    }
  }

  // ---- arguments -------------------------------------------------------------------------

  // Words the quoter leaves alone and the shell reads back.
  predicate IsFlag(s: string) {
    s != "" && forall i :: 0 <= i < |s| ==> IsAlphanumeric(s[i]) || s[i] == '-' || s[i] == '_'
  }

  lemma FlagIsPlain(s: string)
    requires IsFlag(s)
    ensures AllSafe(s) && Quote(s) == s && !IsBarePlaceholder(s)
  {
    assert '<' !in s && '>' !in s by {
      assert !IsAlphanumeric('<') && !IsAlphanumeric('>');
    }
  }

  function Decimal(n: nat): (r: string)
    ensures IsFlag(r)
  {
    if n < 10 then Digit(n) else Decimal(n / 10) + Digit(n % 10)
  }

  function Digit(d: nat): (r: string)
    requires d < 10
    ensures IsFlag(r) && IsDigits(r) && |r| == 1
  {
    ["0", "1", "2", "3", "4", "5", "6", "7", "8", "9"][d]
  }

  predicate IsDigits(s: string) {
    forall i :: 0 <= i < |s| ==> '0' <= s[i] <= '9'
  }

  function ReadDecimal(s: string): nat
    requires IsDigits(s)
  {
    if s == "" then 0 else 10 * ReadDecimal(s[..|s| - 1]) + (s[|s| - 1] as int - '0' as int)
  }

  lemma DigitBack(d: nat)
    requires d < 10
    ensures Digit(d)[0] as int - '0' as int == d
  {
  }

  lemma ReadSnoc(s: string, d: nat)
    requires IsDigits(s) && d < 10
    ensures IsDigits(s + Digit(d)) && ReadDecimal(s + Digit(d)) == 10 * ReadDecimal(s) + d
  {
    hide Digit;
    var r := s + Digit(d);
    DigitBack(d);
    assert r[..|r| - 1] == s && r[|r| - 1] == Digit(d)[0];
  }

  // A printed number reads back as itself.
  lemma {:induction false} DecimalBack(n: nat)
    ensures IsDigits(Decimal(n)) && ReadDecimal(Decimal(n)) == n
  {
    hide Digit, ReadDecimal, IsDigits, IsFlag;
    if n < 10 {
      NoDigits();
      ReadSnoc("", n);
      assert "" + Digit(n) == Digit(n);
    } else {
      DecimalBack(n / 10);
      ReadSnoc(Decimal(n / 10), n % 10);
    }
  }

  lemma NoDigits()
    ensures IsDigits("") && ReadDecimal("") == 0
  {
  }

  function Optional(name: string, value: Option<string>): seq<string> {
    if value.Some? then [name, value.value] else []
  }

  function IdentityArgs(scenario: Option<string>, workload: Option<string>, route: Option<string>): seq<string> {
    Optional("--scenario", Normalized(scenario)) + Optional("--workload-label", Normalized(workload))
    + Optional("--route-label", Normalized(route))
  }

  function BaselineName(prefix: string, index: nat): string { prefix + "-baseline-" + Decimal(index) }

  // The arguments the user is meant to run.
  function BaselineArgs(x: Input, scenario: Option<string>, prefix: string, index: nat): seq<string> {
    ["stutter", "record", "--tree-pid", Decimal(x.treePid), "--duration", Decimal(x.seconds), "--run-name"]
    + [BaselineName(prefix, index)] + IdentityArgs(scenario, x.workload, x.route)
  }

  function TuneArgs(x: Input, scenario: Option<string>, testRuns: nat): seq<string> {
    ["stutter", "tune", "--tree-pid", Decimal(x.treePid), "--profiles"] + [x.profiles]
    + ["--runs", Decimal(testRuns), "--baseline-profile"] + [x.baselineProfile]
    + IdentityArgs(scenario, x.workload, x.route)
  }

  function Placeholders(prefix: string, n: nat): seq<string> {
    if n == 0 then [] else Placeholders(prefix, n - 1) + ["<" + BaselineName(prefix, n) + ">"]
  }

  const TUNE_DIR := "<tune-dir>"

  function ValidateArgs(x: Input, prefix: string, baselineRuns: nat): seq<string> {
    ["stutter", "recommend", "--fix-plan"] + [x.planPath] + ["--baseline"] + Placeholders(prefix, baselineRuns)
    + ["--tune"] + [TUNE_DIR] + ["--html"] + [x.html]
  }

  predicate AllFlags(xs: seq<string>) {
    forall i :: 0 <= i < |xs| ==> IsFlag(xs[i])
  }

  lemma {:induction false} QuoteAllAppend(xs: seq<string>, ys: seq<string>)
    ensures QuoteAll(xs + ys) == QuoteAll(xs) + QuoteAll(ys)
  {
    hide Quote;
    if xs == [] {
      assert xs + ys == ys;
    } else {
      QuoteAllAppend(xs[1..], ys);
      assert (xs + ys)[1..] == xs[1..] + ys;
    }
  }

  lemma {:induction false} QuoteAllFlags(xs: seq<string>)
    requires AllFlags(xs)
    ensures QuoteAll(xs) == xs && NoPlaceholder(xs)
  {
    hide Quote, IsFlag, IsBarePlaceholder;
    if xs != [] {
      assert IsFlag(xs[0]);
      FlagIsPlain(xs[0]);
      QuoteAllFlags(xs[1..]);
      assert forall i :: 1 <= i < |xs| ==> xs[i] == xs[1..][i - 1];
    }
  }

  lemma NoPlaceholderAppend(xs: seq<string>, ys: seq<string>)
    ensures NoPlaceholder(xs + ys) <==> NoPlaceholder(xs) && NoPlaceholder(ys)
  {
    hide IsBarePlaceholder;
    var all := xs + ys;
    assert forall i :: 0 <= i < |xs| ==> all[i] == xs[i];
    assert forall i :: 0 <= i < |ys| ==> all[|xs| + i] == ys[i];
  }

  lemma QuoteAllOne(v: string)
    ensures QuoteAll([v]) == [Quote(v)] && (NoPlaceholder([v]) <==> !IsBarePlaceholder(v))
  {
    hide Quote, IsBarePlaceholder;
    assert [v][0] == v && [v][1..] == [];
    assert QuoteAll([v]) == [Quote(v)] + QuoteAll([]);
  }

  // ---- the commands ----------------------------------------------------------------------

  // An argument list under construction: plain is what the words should come out as, and
  // clean says whether no placeholder is among them.
  ghost predicate Building(args: seq<string>, plain: seq<string>, clean: bool) {
    args == QuoteAll(plain) && (NoPlaceholder(plain) <==> clean)
  }

  method PushFlags(args: seq<string>, flags: seq<string>, ghost plain: seq<string>, ghost clean: bool)
    returns (r: seq<string>)
    requires Building(args, plain, clean) && AllFlags(flags)
    ensures Building(r, plain + flags, clean)
  {
    hide QuoteAll, NoPlaceholder;
    QuoteAllAppend(plain, flags);
    NoPlaceholderAppend(plain, flags);
    QuoteAllFlags(flags);
    r := args + flags;
  }

  method PushQuoted(args: seq<string>, value: string, ghost plain: seq<string>, ghost clean: bool)
    returns (r: seq<string>)
    requires Building(args, plain, clean)
    ensures Building(r, plain + [value], clean && !IsBarePlaceholder(value))
  {
    hide QuoteAll, NoPlaceholder, IsBarePlaceholder, Quote;
    QuoteAllAppend(plain, [value]);
    NoPlaceholderAppend(plain, [value]);
    QuoteAllOne(value);
    var quoted := ShellQuoteValue(value);
    r := args + [quoted];
  }

  // The value would be left bare although the shell gives it another meaning.
  predicate Bare(value: Option<string>) { value.Some? && IsBarePlaceholder(value.value) }

  method PushOptional(args: seq<string>, name: string, value: Option<string>, ghost plain: seq<string>, ghost clean: bool)
    returns (r: seq<string>)
    requires Building(args, plain, clean) && IsFlag(name)
    ensures Building(r, plain + Optional(name, Normalized(value)), clean && !Bare(Normalized(value)))
  {
    hide Building, IsBarePlaceholder, Normalized, IsFlag;
    var text := Normalized(value);
    if text.None? {
      assert plain + [] == plain;
      return args;
    }
    r := PushFlags(args, [name], plain, clean);
    r := PushQuoted(r, text.value, plain + [name], clean);
    assert plain + [name] + [text.value] == plain + [name, text.value];
  }

  lemma NameFlags()
    ensures IsFlag("--scenario") && IsFlag("--workload-label") && IsFlag("--route-label")
  {
  }

  lemma ScenarioIsFlag(scenario: Option<string>)
    requires scenario.Some? ==> IsScenarioName(scenario.value)
    ensures !Bare(Normalized(scenario))
  {
    if scenario.Some? {
      NoSpaceStays(scenario.value);
      FlagIsPlain(scenario.value);
    }
  }

  lemma NoSpaceStays(s: string)
    requires IsScenarioName(s)
    ensures Normalized(Some(s)) == Some(s)
  {
    assert !IsWhitespace(s[0]) && !IsWhitespace(s[|s| - 1]);
  }

  // Which labels keep a command from being read back.
  predicate LabelsClean(x: Input) {
    !Bare(Normalized(x.workload)) && !Bare(Normalized(x.route))
  }

  method PushIdentity(args: seq<string>, scenario: Option<string>, x: Input, ghost plain: seq<string>, ghost clean: bool)
    returns (r: seq<string>)
    requires Building(args, plain, clean)
    requires scenario.Some? ==> IsScenarioName(scenario.value)
    ensures Building(r, plain + IdentityArgs(scenario, x.workload, x.route), clean && LabelsClean(x))
  {
    hide Building, IsFlag, Normalized, Optional, Bare, IsScenarioName;
    NameFlags();
    ScenarioIsFlag(scenario);
    ghost var p1 := plain + Optional("--scenario", Normalized(scenario));
    ghost var p2 := p1 + Optional("--workload-label", Normalized(x.workload));
    r := PushOptional(args, "--scenario", scenario, plain, clean);
    r := PushOptional(r, "--workload-label", x.workload, p1, clean);
    r := PushOptional(r, "--route-label", x.route, p2, clean && !Bare(Normalized(x.workload)));
    assert p2 + Optional("--route-label", Normalized(x.route))
        == plain + IdentityArgs(scenario, x.workload, x.route);
  }

  method JoinArgs(args: seq<string>) returns (command: string)
    ensures command == Join(args)
  {
    command := "";
    var i := |args|;
    while i > 0
      invariant 0 <= i <= |args|
      invariant command == Join(args[i..])
    {
      i := i - 1;
      assert args[i..][1..] == args[i + 1..];
      command := if i == |args| - 1 then args[i] else args[i] + " " + command;
    }
    assert args[0..] == args;
  }

  // Pasting the command into a shell runs exactly these arguments, if and only if `clean`.
  ghost predicate Pastes(command: string, args: seq<string>, clean: bool) {
    command == Join(QuoteAll(args)) && (Tokenize(command) == Some(Words(args)) <==> clean)
  }

  method Finish(args: seq<string>, ghost plain: seq<string>, ghost clean: bool) returns (command: string)
    requires Building(args, plain, clean)
    ensures Pastes(command, plain, clean)
  {
    hide QuoteAll, NoPlaceholder, Join, Tokenize, Words;
    RoundTripsIff(plain);
    command := JoinArgs(args);
  }

  lemma NothingBuilt()
    ensures Building([], [], true)
  {
  }

  lemma RecordFlags(pid: string, seconds: string)
    requires IsFlag(pid) && IsFlag(seconds)
    ensures AllFlags(["stutter", "record", "--tree-pid", pid, "--duration", seconds, "--run-name"])
  {
  }

  // A run name made of labels is never a placeholder.
  lemma NameIsPlain(prefix: string, index: nat)
    requires IsFlag(prefix)
    ensures IsFlag(BaselineName(prefix, index)) && !IsBarePlaceholder(BaselineName(prefix, index))
  {
    hide Decimal;
    assert IsFlag("-baseline-");
    FlagIsPlain(BaselineName(prefix, index));
  }

  lemma PrefixIsFlag(scenario: Option<string>, planId: string)
    ensures IsFlag(RunPrefix(scenario, planId))
  {
    hide Sanitized, AfterColon;
    if scenario.Some? {
      SanitizedIsLabel(scenario.value);
    }
    SanitizedIsLabel(AfterColon(planId));
    assert IsFlag("fix-") && IsFlag("fix-validation");
  }

  method BaselineCommand(x: Input, scenario: Option<string>, prefix: string, index: nat) returns (command: string)
    requires (scenario.Some? ==> IsScenarioName(scenario.value)) && IsFlag(prefix)
    ensures Pastes(command, BaselineArgs(x, scenario, prefix, index), LabelsClean(x))
  {
    hide Building, Pastes, Decimal, IsFlag, IsBarePlaceholder, LabelsClean, IdentityArgs, IsScenarioName, BaselineName;
    var pid, seconds := Decimal(x.treePid), Decimal(x.seconds);
    var flags := ["stutter", "record", "--tree-pid", pid, "--duration", seconds, "--run-name"];
    RecordFlags(pid, seconds);
    NothingBuilt();
    NameIsPlain(prefix, index);
    ghost var plain := [] + flags;
    var args := PushFlags([], flags, [], true);
    args := PushQuoted(args, BaselineName(prefix, index), plain, true);
    plain := plain + [BaselineName(prefix, index)];
    args := PushIdentity(args, scenario, x, plain, true);
    plain := plain + IdentityArgs(scenario, x.workload, x.route);
    command := Finish(args, plain, LabelsClean(x));
    assert plain == BaselineArgs(x, scenario, prefix, index);
  }

  lemma TuneFlags(pid: string, runs: string)
    requires IsFlag(pid) && IsFlag(runs)
    ensures AllFlags(["stutter", "tune", "--tree-pid", pid, "--profiles"])
    ensures AllFlags(["--runs", runs, "--baseline-profile"])
  {
  }

  method TuneCommand(x: Input, scenario: Option<string>, testRuns: nat) returns (command: string)
    requires scenario.Some? ==> IsScenarioName(scenario.value)
    ensures Pastes(command, TuneArgs(x, scenario, testRuns),
                   LabelsClean(x) && !IsBarePlaceholder(x.profiles) && !IsBarePlaceholder(x.baselineProfile))
  {
    hide Building, Pastes, Decimal, IsFlag, IsBarePlaceholder, LabelsClean, IdentityArgs, IsScenarioName;
    var pid, runs := Decimal(x.treePid), Decimal(testRuns);
    var first, second := ["stutter", "tune", "--tree-pid", pid, "--profiles"], ["--runs", runs, "--baseline-profile"];
    TuneFlags(pid, runs);
    NothingBuilt();
    ghost var plain, clean := [] + first, !IsBarePlaceholder(x.profiles);
    var args := PushFlags([], first, [], true);
    args := PushQuoted(args, x.profiles, plain, true);
    plain := plain + [x.profiles];
    args := PushFlags(args, second, plain, clean);
    plain := plain + second;
    args := PushQuoted(args, x.baselineProfile, plain, clean);
    plain, clean := plain + [x.baselineProfile], clean && !IsBarePlaceholder(x.baselineProfile);
    args := PushIdentity(args, scenario, x, plain, clean);
    plain := plain + IdentityArgs(scenario, x.workload, x.route);
    command := Finish(args, plain, clean && LabelsClean(x));
    assert plain == TuneArgs(x, scenario, testRuns);
  }

  lemma ValidateFlags()
    ensures AllFlags(["stutter", "recommend", "--fix-plan"]) && AllFlags(["--baseline"]) && AllFlags(["--tune"])
    ensures AllFlags(["--html"]) && IsBarePlaceholder(TUNE_DIR)
  {
    assert TUNE_DIR[0] == '<';
  }

  method PushPlaceholders(args: seq<string>, prefix: string, n: nat, ghost plain: seq<string>) returns (r: seq<string>)
    requires args == QuoteAll(plain)
    ensures r == QuoteAll(plain + Placeholders(prefix, n))
  {
    hide QuoteAll, BaselineName;
    r := args;
    assert plain + [] == plain;
    for i := 0 to n
      invariant r == QuoteAll(plain + Placeholders(prefix, i))
    {
      var name := "<" + BaselineName(prefix, i + 1) + ">";
      var quoted := ShellQuoteValue(name);
      QuoteAllAppend(plain + Placeholders(prefix, i), [name]);
      QuoteAllOne(name);
      assert plain + Placeholders(prefix, i) + [name] == plain + Placeholders(prefix, i + 1);
      r := r + [quoted];
    }
  }

  // The comparison command always holds placeholders: as printed it is never a list of words.
  method ValidateCommand(x: Input, prefix: string, baselineRuns: nat) returns (command: string)
    ensures command == Join(QuoteAll(ValidateArgs(x, prefix, baselineRuns)))
    ensures NotWords(Tokenize(command))
  {
    hide QuoteAll, NoPlaceholder, IsFlag, IsBarePlaceholder, Tokenize, NotWords, Placeholders, Join, AllFlags;
    ValidateFlags();
    NothingBuilt();
    ghost var plain: seq<string> := [];
    ghost var clean := NoPlaceholder(plain);
    var args := PushFlags([], ["stutter", "recommend", "--fix-plan"], plain, clean);
    plain := plain + ["stutter", "recommend", "--fix-plan"];
    args := PushQuoted(args, x.planPath, plain, clean);
    plain := plain + [x.planPath];
    clean := NoPlaceholder(plain);
    args := PushFlags(args, ["--baseline"], plain, clean);
    plain := plain + ["--baseline"];
    args := PushPlaceholders(args, prefix, baselineRuns, plain);
    plain := plain + Placeholders(prefix, baselineRuns);
    args := PushFlags(args, ["--tune"], plain, NoPlaceholder(plain));
    plain := plain + ["--tune"];
    args := PushQuoted(args, TUNE_DIR, plain, NoPlaceholder(plain));
    plain := plain + [TUNE_DIR];
    ghost var at := |plain| - 1;
    args := PushFlags(args, ["--html"], plain, NoPlaceholder(plain));
    plain := plain + ["--html"];
    args := PushQuoted(args, x.html, plain, NoPlaceholder(plain));
    plain := plain + [x.html];
    assert plain == ValidateArgs(x, prefix, baselineRuns);
    assert plain[at] == TUNE_DIR;
    PlaceholderBreaks(plain, at);
    command := JoinArgs(args);
  }

  function AtLeastOne(given: Option<nat>, fallback: nat): (n: nat)
    ensures n >= 1 && (given.Some? ==> n == 1 || n == given.value) && (given.None? ==> n == 1 || n == fallback)
    ensures n == 1 ==> (if given.Some? then given.value else fallback) <= 1
  {
    var n := if given.Some? then given.value else fallback;
    if n < 1 then 1 else n
  }

  // The workflow, or None when the scenario name is refused. A scenario given on the command
  // line goes before the plan's; a blank one counts as absent.
  method BuildWorkflow(x: Input, plan: FixPlan) returns (r: Option<Workflow>)
    ensures var scenario := Normalized(if x.scenario.Some? then x.scenario else plan.scenario);
      var prefix := RunPrefix(scenario, plan.id);
      var runs := AtLeastOne(x.baselineRuns, plan.baselineRuns);
      && (r.None? <==> scenario.Some? && !IsScenarioName(scenario.value))
      && (r.Some? ==>
            && |r.value.baselines| == runs
            && (forall k :: 0 <= k < runs ==>
                  Pastes(r.value.baselines[k], BaselineArgs(x, scenario, prefix, k + 1), LabelsClean(x)))
            && Pastes(r.value.tune, TuneArgs(x, scenario, AtLeastOne(x.testRuns, plan.testRuns)),
                      LabelsClean(x) && !IsBarePlaceholder(x.profiles) && !IsBarePlaceholder(x.baselineProfile))
            && r.value.validate == Join(QuoteAll(ValidateArgs(x, prefix, runs)))
            && NotWords(Tokenize(r.value.validate)))
  {
    hide Pastes, LabelsClean, IsBarePlaceholder, RunPrefix, BaselineArgs, TuneArgs, ValidateArgs, Tokenize, NotWords,
      Join, QuoteAll, Normalized, IsScenarioName, IsFlag;
    var scenario := Normalized(if x.scenario.Some? then x.scenario else plan.scenario);
    if scenario.Some? && !IsScenarioName(scenario.value) {
      return None;
    }
    var prefix := RunPrefix(scenario, plan.id);
    PrefixIsFlag(scenario, plan.id);
    var runs := AtLeastOne(x.baselineRuns, plan.baselineRuns);
    var baselines: seq<string> := [];
    for k := 0 to runs
      invariant |baselines| == k
      invariant forall j :: 0 <= j < k ==>
        Pastes(baselines[j], BaselineArgs(x, scenario, prefix, j + 1), LabelsClean(x))
    {
      var command := BaselineCommand(x, scenario, prefix, k + 1);
      baselines := baselines + [command];
    }
    var tune := TuneCommand(x, scenario, AtLeastOne(x.testRuns, plan.testRuns));
    var validate := ValidateCommand(x, prefix, runs);
    r := Some(Workflow(baselines, tune, validate));
  }
}
