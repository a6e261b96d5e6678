/** The two decisions the main window takes from an evaluation report: the
    ordered list of advice shown to the user, and the rating appended to the
    entropy figure. The report itself is an input; nothing here computes a
    score, an entropy or the common-password flag. */
module PasswordCheckerFrame {

  /** The fields of an evaluation report that the advice depends on. */
  datatype Report = Report(
    length: nat,
    hasUpper: bool,
    hasLower: bool,
    hasDigit: bool,
    hasSymbol: bool,
    entropy: real,
    isCommon: bool,
    patterns: seq<string>)

  /** One line of advice; `Text` gives the words the window shows. */
  datatype Advice =
    | UseAtLeastSeven
    | ConsiderEleven
    | AddUppercase
    | AddLowercase
    | IncludeNumbers
    | IncludeSpecial
    | IncreaseComplexity
    | CommonPassword
    | AvoidPatterns(names: seq<string>)

  /** The words each line of advice opens with; they tell the lines apart. */
  function Lead(a: Advice): string {
    match a
    case UseAtLeastSeven => "Use"
    case ConsiderEleven => "Consider"
    case AddUppercase => "Add uppercase"
    case AddLowercase => "Add lowercase"
    case IncludeNumbers => "Include numbers"
    case IncludeSpecial => "Include special"
    case IncreaseComplexity => "Increase"
    case CommonPassword => "\U{26A0}\U{FE0F} CRITICAL:"
    case AvoidPatterns(_) => "\U{26A0}\U{FE0F} Avoid"
  }

  /** The exact line the window shows: the leading words, then the rest. */
  function Text(a: Advice): string {
    Lead(a) +
    match a
    case UseAtLeastSeven => " at least 7 characters (11+ recommended)"
    case ConsiderEleven => " using 11+ characters for better security"
    case AddUppercase => " letters (A-Z)"
    case AddLowercase => " letters (a-z)"
    case IncludeNumbers => " (0-9)"
    case IncludeSpecial => " characters (!@#$%^&*)"
    case IncreaseComplexity => " complexity - use a mix of different character types"
    case CommonPassword => " This is a common password! Choose something unique"
    case AvoidPatterns(names) => " predictable patterns: " + Join(names, ", ")
  }

  /** Python's `sep.join(parts)`. */
  function Join(parts: seq<string>, sep: string): string
    decreases |parts|
  {
    if |parts| == 0 then ""
    else if |parts| == 1 then parts[0]
    else parts[0] + sep + Join(parts[1..], sep)
  }

  /** The texts of a list of advice, in order. */
  function Render(advice: seq<Advice>): (lines: seq<string>)
    ensures |lines| == |advice|
    ensures forall k :: 0 <= k < |advice| ==> lines[k] == Text(advice[k])
  {
    seq(|advice|, k requires 0 <= k < |advice| => Text(advice[k]))
  }

  /** Appending one more part adds the separator and that part at the end. */
  lemma {:induction false} JoinAppend(parts: seq<string>, last: string, sep: string)
    requires |parts| > 0
    ensures Join(parts + [last], sep) == Join(parts, sep) + sep + last
    decreases |parts|
  {
    if |parts| > 1 {
      assert (parts + [last])[1..] == parts[1..] + [last];
      JoinAppend(parts[1..], last, sep);
    }
  }

  /** Joining loses the boundaries between names: one name holding ", " and
      two names give the same pattern warning. */
  lemma PatternTextsMayCoincide()
    ensures AvoidPatterns(["ab, c"]) != AvoidPatterns(["ab", "c"])
    ensures Text(AvoidPatterns(["ab, c"])) == Text(AvoidPatterns(["ab", "c"]))
  {
  }

  /** An index at which the leading words of two different lines differ:
      the first character, else the fifth ("Add u" / "Add l"), the ninth
      ("Include n" / "Include s") or the fourth ("Incr" / "Incl",
      "\U{26A0}\U{FE0F} C" / "\U{26A0}\U{FE0F} A"). */
  function Fork(a: Advice, b: Advice): nat {
    if Lead(a)[0] != Lead(b)[0] then 0
    else if a.AddUppercase? || a.AddLowercase? then 4
    else if (a.IncludeNumbers? || a.IncludeSpecial?) && (b.IncludeNumbers? || b.IncludeSpecial?) then 8
    else 3
  }

  lemma LeadsApart(a: Advice, b: Advice)
    requires a != b && !(a.AvoidPatterns? && b.AvoidPatterns?)
    ensures Fork(a, b) < |Lead(a)| && Fork(a, b) < |Lead(b)|
    ensures Lead(a)[Fork(a, b)] != Lead(b)[Fork(a, b)]
  {
  }

  /** Two strings that differ at index i stay different whatever follows. */
  lemma DifferentOpenings(x: string, s: string, y: string, t: string, i: nat)
    requires i < |x| && i < |y| && x[i] != y[i]
    ensures x + s != y + t
  {
    assert (x + s)[i] == x[i];
  }

  /** Different advice shows different text; only two pattern warnings,
      whose joined names may coincide, are not told apart. */
  lemma TextDistinct(a: Advice, b: Advice)
    requires a != b && !(a.AvoidPatterns? && b.AvoidPatterns?)
    ensures Text(a) != Text(b)
  {
    LeadsApart(a, b);
    var x, y := Lead(a), Lead(b);
    DifferentOpenings(x, Text(a)[|x|..], y, Text(b)[|y|..], Fork(a, b));
    assert Text(a) == x + Text(a)[|x|..];
    assert Text(b) == y + Text(b)[|y|..];
  }

  // ---------------------------------------------------------------------
  // Reference definition: a table of guarded advice, kept in table order
  // ---------------------------------------------------------------------

  /** One row of the advice table: the advice and whether the report
      triggers it. */
  datatype Rule = Rule(fires: bool, advice: Advice)

  /** The advice table, one row per test, in the order the tests are made.
      Row 0 is the length advice (one test, shorter than 11, with two
      possible texts), rows 1 to 4 the missing classes (upper, lower, digit,
      symbol), then low entropy, a common password and detected patterns. */
  function Rules(r: Report): seq<Rule> {
    [ Rule(r.length < 11, if r.length < 7 then UseAtLeastSeven else ConsiderEleven),
      Rule(!r.hasUpper, AddUppercase),
      Rule(!r.hasLower, AddLowercase),
      Rule(!r.hasDigit, IncludeNumbers),
      Rule(!r.hasSymbol, IncludeSpecial),
      Rule(r.entropy < 29.0, IncreaseComplexity),
      Rule(r.isCommon, CommonPassword),
      Rule(|r.patterns| > 0, AvoidPatterns(r.patterns)) ]
  }

  /** One row's turn: its advice is appended when it fires. */
  function Add(before: seq<Advice>, row: Rule): seq<Advice> {
    if row.fires then before + [row.advice] else before
  }

  /** The advice of the rows that fire, in table order: the rows take their
      turn one after the other. */
  function Fired(rules: seq<Rule>): seq<Advice>
    decreases |rules|
  {
    if rules == [] then [] else Add(Fired(rules[..|rules| - 1]), rules[|rules| - 1])
  }

  function Recommendations(r: Report): seq<Advice> {
    Fired(Rules(r))
  }

  /** Every criterion the advice checks is met. */
  predicate MeetsAllCriteria(r: Report) {
    r.length >= 11 && r.hasUpper && r.hasLower && r.hasDigit && r.hasSymbol
    && r.entropy >= 29.0 && !r.isCommon && r.patterns == []
  }

  predicate NoDuplicates(s: seq<Advice>) {
    forall a, b :: 0 <= a < b < |s| ==> s[a] != s[b]
  }

  /** x stands somewhere before y in s. */
  predicate Before(s: seq<Advice>, x: Advice, y: Advice) {
    exists a, b :: 0 <= a < b < |s| && s[a] == x && s[b] == y
  }

  // ---------------------------------------------------------------------
  // The method, as the window builds the list
  // ---------------------------------------------------------------------

  /** Each test appends at most one line to the list: the list shown is
      the texts of the advice the table yields (see the lemmas below for
      what that list is). */
  method GenerateRecommendations(result: Report) returns (recommendations: seq<string>)
    ensures recommendations == Render(Recommendations(result))
  {
    recommendations := [];

    // Length recommendations
    if result.length < 7 {
      recommendations := recommendations + [Text(UseAtLeastSeven)];
    } else if result.length < 11 {
      recommendations := recommendations + [Text(ConsiderEleven)];
    }

    // Character variety recommendations
    if !result.hasUpper {
      recommendations := recommendations + [Text(AddUppercase)];
    }
    if !result.hasLower {
      recommendations := recommendations + [Text(AddLowercase)];
    }
    if !result.hasDigit {
      recommendations := recommendations + [Text(IncludeNumbers)];
    }
    if !result.hasSymbol {
      recommendations := recommendations + [Text(IncludeSpecial)];
    }

    // Entropy recommendation
    if result.entropy < 29.0 {
      recommendations := recommendations + [Text(IncreaseComplexity)];
    }

    // Common password warning
    if result.isCommon {
      recommendations := recommendations + [Text(CommonPassword)];
    }

    // Pattern warning
    if |result.patterns| > 0 {
      recommendations := recommendations + [Text(AvoidPatterns(result.patterns))];
    }

    RenderedSpelledOut(result);
  }

  // ---------------------------------------------------------------------
  // Facts about the table filter
  // ---------------------------------------------------------------------

  /** One row's turn, on the texts shown. */
  function Show(lines: seq<string>, row: Rule): seq<string> {
    if row.fires then lines + [Text(row.advice)] else lines
  }

  lemma RenderAdd(before: seq<Advice>, row: Rule)
    ensures Render(Add(before, row)) == Show(Render(before), row)
  {
  }

  /** The texts of the advice, as the rows take their turns. */
  lemma RenderedSpelledOut(r: Report)
    ensures Render(Recommendations(r)) ==
      Show(Show(Show(Show(Show(Show(Show(Show([],
        Rule(r.length < 11, if r.length < 7 then UseAtLeastSeven else ConsiderEleven)),
        Rule(!r.hasUpper, AddUppercase)),
        Rule(!r.hasLower, AddLowercase)),
        Rule(!r.hasDigit, IncludeNumbers)),
        Rule(!r.hasSymbol, IncludeSpecial)),
        Rule(r.entropy < 29.0, IncreaseComplexity)),
        Rule(r.isCommon, CommonPassword)),
        Rule(|r.patterns| > 0, AvoidPatterns(r.patterns)))
  {
    RecommendationsSpelledOut(r);
    var rs := Rules(r);
    var a0 := Add([], rs[0]);
    var a1 := Add(a0, rs[1]);
    var a2 := Add(a1, rs[2]);
    var a3 := Add(a2, rs[3]);
    var a4 := Add(a3, rs[4]);
    var a5 := Add(a4, rs[5]);
    var a6 := Add(a5, rs[6]);
    RenderAdd([], rs[0]);
    RenderAdd(a0, rs[1]);
    RenderAdd(a1, rs[2]);
    RenderAdd(a2, rs[3]);
    RenderAdd(a3, rs[4]);
    RenderAdd(a4, rs[5]);
    RenderAdd(a5, rs[6]);
    RenderAdd(a6, rs[7]);
  }

  /** The filter applied row by row to the eight rows of the table. */
  lemma RecommendationsSpelledOut(r: Report)
    ensures Recommendations(r) ==
      Add(Add(Add(Add(Add(Add(Add(Add([],
        Rule(r.length < 11, if r.length < 7 then UseAtLeastSeven else ConsiderEleven)),
        Rule(!r.hasUpper, AddUppercase)),
        Rule(!r.hasLower, AddLowercase)),
        Rule(!r.hasDigit, IncludeNumbers)),
        Rule(!r.hasSymbol, IncludeSpecial)),
        Rule(r.entropy < 29.0, IncreaseComplexity)),
        Rule(r.isCommon, CommonPassword)),
        Rule(|r.patterns| > 0, AvoidPatterns(r.patterns)))
  {
    var rs := Rules(r);
    assert rs[..1][..0] == [];
    assert Fired(rs[..1]) == Add([], rs[0]);
    assert rs[..2][..1] == rs[..1];
    assert Fired(rs[..2]) == Add(Fired(rs[..1]), rs[1]);
    assert rs[..3][..2] == rs[..2];
    assert Fired(rs[..3]) == Add(Fired(rs[..2]), rs[2]);
    assert rs[..4][..3] == rs[..3];
    assert Fired(rs[..4]) == Add(Fired(rs[..3]), rs[3]);
    assert rs[..5][..4] == rs[..4];
    assert Fired(rs[..5]) == Add(Fired(rs[..4]), rs[4]);
    assert rs[..6][..5] == rs[..5];
    assert Fired(rs[..6]) == Add(Fired(rs[..5]), rs[5]);
    assert rs[..7][..6] == rs[..6];
    assert Fired(rs[..7]) == Add(Fired(rs[..6]), rs[6]);
    assert rs[..7] == rs[..|rs| - 1];
    assert Fired(rs) == Add(Fired(rs[..7]), rs[7]);
  }

  lemma {:induction false} FiredLength(rules: seq<Rule>)
    ensures |Fired(rules)| <= |rules|
    ensures Fired(rules) == [] <==> forall i :: 0 <= i < |rules| ==> !rules[i].fires
    decreases |rules|
  {
    if rules != [] {
      var init := rules[..|rules| - 1];
      FiredLength(init);
      assert forall i :: 0 <= i < |init| ==> rules[i] == init[i];
    }
  }

  lemma {:induction false} FiredMember(rules: seq<Rule>, a: Advice)
    ensures a in Fired(rules) <==> exists i :: 0 <= i < |rules| && rules[i].fires && rules[i].advice == a
    decreases |rules|
  {
    if rules != [] {
      var init := rules[..|rules| - 1];
      FiredMember(init, a);
      if exists i :: 0 <= i < |init| && init[i].fires && init[i].advice == a {
        var i :| 0 <= i < |init| && init[i].fires && init[i].advice == a;
        assert rules[i] == init[i];
      }
      if exists i :: 0 <= i < |rules| && rules[i].fires && rules[i].advice == a {
        var i :| 0 <= i < |rules| && rules[i].fires && rules[i].advice == a;
        if i < |init| {
          assert init[i] == rules[i];
        }
      }
    }
  }

  lemma {:induction false} FiredAppend(xs: seq<Rule>, ys: seq<Rule>)
    ensures Fired(xs + ys) == Fired(xs) + Fired(ys)
    decreases |ys|
  {
    if ys == [] {
      assert xs + ys == xs;
    } else {
      var init := ys[..|ys| - 1];
      assert (xs + ys)[..|xs + ys| - 1] == xs + init;
      FiredAppend(xs, init);
    }
  }

  /** A firing row's advice appears at the position given by the number of
      firing rows before it. */
  lemma FiredAt(rules: seq<Rule>, i: nat)
    requires i < |rules| && rules[i].fires
    ensures |Fired(rules[..i])| < |Fired(rules)|
    ensures Fired(rules)[|Fired(rules[..i])|] == rules[i].advice
  {
    assert rules == rules[..i] + ([rules[i]] + rules[i + 1..]);
    assert [rules[i]][..0] == [];
    FiredAppend([rules[i]], rules[i + 1..]);
    FiredAppend(rules[..i], [rules[i]] + rules[i + 1..]);
  }

  /** Two firing rows keep their table order in the output. */
  lemma FiredKeepsOrder(rules: seq<Rule>, i: nat, j: nat)
    requires i < j < |rules| && rules[i].fires && rules[j].fires
    ensures Before(Fired(rules), rules[i].advice, rules[j].advice)
  {
    var out := Fired(rules);
    var a, b := |Fired(rules[..i])|, |Fired(rules[..j])|;
    FiredAt(rules, i);
    FiredAt(rules, j);
    assert rules[..j] == rules[..i] + rules[i..j];
    FiredAppend(rules[..i], rules[i..j]);
    FiredLength(rules[i..j]);
    assert rules[i..j][0].fires;
    assert 0 <= a < b < |out| && out[a] == rules[i].advice && out[b] == rules[j].advice;
  }

  lemma {:induction false} FiredNoDuplicates(rules: seq<Rule>)
    requires forall i, j :: 0 <= i < j < |rules| ==> rules[i].advice != rules[j].advice
    ensures NoDuplicates(Fired(rules))
    decreases |rules|
  {
    if rules != [] {
      var init := rules[..|rules| - 1];
      FiredNoDuplicates(init);
      var last := rules[|rules| - 1];
      if last.fires {
        FiredMember(init, last.advice);
        assert last.advice !in Fired(init);
      }
    }
  }

  // ---------------------------------------------------------------------
  // Properties of the advice list
  // ---------------------------------------------------------------------

  lemma RecommendationsAtMostEight(r: Report)
    ensures |Recommendations(r)| <= 8
  {
    FiredLength(Rules(r));
  }

  /** The window shows the "meets all criteria" message exactly when no
      advice is produced. */
  lemma RecommendationsEmptyIff(r: Report)
    ensures Recommendations(r) == [] <==> MeetsAllCriteria(r)
  {
    var rs := Rules(r);
    FiredLength(rs);
    if Recommendations(r) == [] {
      assert !rs[0].fires && !rs[1].fires && !rs[2].fires && !rs[3].fires;
      assert !rs[4].fires && !rs[5].fires && !rs[6].fires && !rs[7].fires;
    }
  }

  /** No line of advice is given twice. */
  lemma RecommendationsNoDuplicates(r: Report)
    ensures NoDuplicates(Recommendations(r))
  {
    FiredNoDuplicates(Rules(r));
  }

  /** At most one length advice, and it comes first. */
  lemma LengthAdvice(r: Report)
    ensures r.length < 7 ==> |Recommendations(r)| > 0 && Recommendations(r)[0] == UseAtLeastSeven
    ensures 7 <= r.length < 11 ==> |Recommendations(r)| > 0 && Recommendations(r)[0] == ConsiderEleven
    ensures r.length >= 11 ==> UseAtLeastSeven !in Recommendations(r) && ConsiderEleven !in Recommendations(r)
    ensures !(UseAtLeastSeven in Recommendations(r) && ConsiderEleven in Recommendations(r))
  {
    var rs := Rules(r);
    FiredMember(rs, UseAtLeastSeven);
    FiredMember(rs, ConsiderEleven);
    if r.length < 11 {
      FiredAt(rs, 0);
      assert rs[..0] == [];
    }
  }

  /** One line per missing character class. */
  lemma ClassAdvice(r: Report)
    ensures AddUppercase in Recommendations(r) <==> !r.hasUpper
    ensures AddLowercase in Recommendations(r) <==> !r.hasLower
    ensures IncludeNumbers in Recommendations(r) <==> !r.hasDigit
    ensures IncludeSpecial in Recommendations(r) <==> !r.hasSymbol
  {
    var rs := Rules(r);
    FiredMember(rs, AddUppercase);
    FiredMember(rs, AddLowercase);
    FiredMember(rs, IncludeNumbers);
    FiredMember(rs, IncludeSpecial);
    assert rs[1].advice == AddUppercase && rs[2].advice == AddLowercase;
    assert rs[3].advice == IncludeNumbers && rs[4].advice == IncludeSpecial;
  }

  /** Two lines that are both produced appear in table order: length advice,
      then upper, lower, digit, symbol, then entropy, common, patterns. */
  lemma AdviceFollowsTable(r: Report, i: nat, j: nat)
    requires i < j < |Rules(r)| && Rules(r)[i].fires && Rules(r)[j].fires
    ensures Before(Recommendations(r), Rules(r)[i].advice, Rules(r)[j].advice)
  {
    FiredKeepsOrder(Rules(r), i, j);
  }

  /** The class advice comes in the fixed order upper, lower, digit,
      symbol, whichever of them are produced. */
  lemma ClassAdviceOrder(r: Report)
    ensures !r.hasUpper && !r.hasLower ==> Before(Recommendations(r), AddUppercase, AddLowercase)
    ensures !r.hasUpper && !r.hasDigit ==> Before(Recommendations(r), AddUppercase, IncludeNumbers)
    ensures !r.hasUpper && !r.hasSymbol ==> Before(Recommendations(r), AddUppercase, IncludeSpecial)
    ensures !r.hasLower && !r.hasDigit ==> Before(Recommendations(r), AddLowercase, IncludeNumbers)
    ensures !r.hasLower && !r.hasSymbol ==> Before(Recommendations(r), AddLowercase, IncludeSpecial)
    ensures !r.hasDigit && !r.hasSymbol ==> Before(Recommendations(r), IncludeNumbers, IncludeSpecial)
  {
    var rs := Rules(r);
    if !r.hasUpper && !r.hasLower { FiredKeepsOrder(rs, 1, 2); }
    if !r.hasUpper && !r.hasDigit { FiredKeepsOrder(rs, 1, 3); }
    if !r.hasUpper && !r.hasSymbol { FiredKeepsOrder(rs, 1, 4); }
    if !r.hasLower && !r.hasDigit { FiredKeepsOrder(rs, 2, 3); }
    if !r.hasLower && !r.hasSymbol { FiredKeepsOrder(rs, 2, 4); }
    if !r.hasDigit && !r.hasSymbol { FiredKeepsOrder(rs, 3, 4); }
  }

  /** Any length advice comes before any class advice. */
  lemma LengthAdviceBeforeClassAdvice(r: Report, j: nat)
    requires 1 <= j <= 4 && Rules(r)[j].fires && r.length < 11
    ensures Before(Recommendations(r), if r.length < 7 then UseAtLeastSeven else ConsiderEleven, Rules(r)[j].advice)
  {
    FiredKeepsOrder(Rules(r), 0, j);
  }

  /** The three warnings each appear exactly when their condition holds;
      all detected pattern names share a single line. */
  lemma Warnings(r: Report)
    ensures IncreaseComplexity in Recommendations(r) <==> r.entropy < 29.0
    ensures CommonPassword in Recommendations(r) <==> r.isCommon
    ensures (exists names :: AvoidPatterns(names) in Recommendations(r)) <==> |r.patterns| > 0
    ensures forall names :: AvoidPatterns(names) in Recommendations(r) ==> names == r.patterns
  {
    var rs := Rules(r);
    FiredMember(rs, IncreaseComplexity);
    FiredMember(rs, CommonPassword);
    FiredMember(rs, AvoidPatterns(r.patterns));
    forall names | AvoidPatterns(names) in Recommendations(r)
      ensures names == r.patterns
    {
      FiredMember(rs, AvoidPatterns(names));
    }
    assert rs[5].advice == IncreaseComplexity && rs[6].advice == CommonPassword;
    assert rs[7].advice == AvoidPatterns(r.patterns);
  }

  /** What the window shows: at most eight lines, and none exactly when
      the report meets every criterion (the window then shows its
      "meets all criteria" message instead). */
  lemma ShownLines(r: Report)
    ensures |Render(Recommendations(r))| <= 8
    ensures Render(Recommendations(r)) == [] <==> MeetsAllCriteria(r)
  {
    RecommendationsAtMostEight(r);
    RecommendationsEmptyIff(r);
  }

  /** The same facts on the strings the window shows, first for length:
      each length text is there exactly when its test fires, and it comes
      first. */
  lemma ShownLengthAdvice(r: Report)
    ensures Text(UseAtLeastSeven) in Render(Recommendations(r)) <==> r.length < 7
    ensures Text(ConsiderEleven) in Render(Recommendations(r)) <==> 7 <= r.length < 11
    ensures r.length < 11 ==> Render(Recommendations(r))[0] == Text(if r.length < 7 then UseAtLeastSeven else ConsiderEleven)
  {
    var advice := Recommendations(r);
    LengthAdvice(r);
    RenderMember(advice, UseAtLeastSeven);
    RenderMember(advice, ConsiderEleven);
  }

  /** Each class text is shown exactly when that class is missing. */
  lemma ShownClassAdvice(r: Report)
    ensures Text(AddUppercase) in Render(Recommendations(r)) <==> !r.hasUpper
    ensures Text(AddLowercase) in Render(Recommendations(r)) <==> !r.hasLower
    ensures Text(IncludeNumbers) in Render(Recommendations(r)) <==> !r.hasDigit
    ensures Text(IncludeSpecial) in Render(Recommendations(r)) <==> !r.hasSymbol
  {
    var advice := Recommendations(r);
    ClassAdvice(r);
    RenderMember(advice, AddUppercase);
    RenderMember(advice, AddLowercase);
    RenderMember(advice, IncludeNumbers);
    RenderMember(advice, IncludeSpecial);
  }

  /** Each warning text is shown exactly when its condition holds. */
  lemma ShownWarnings(r: Report)
    ensures Text(IncreaseComplexity) in Render(Recommendations(r)) <==> r.entropy < 29.0
    ensures Text(CommonPassword) in Render(Recommendations(r)) <==> r.isCommon
    ensures Text(AvoidPatterns(r.patterns)) in Render(Recommendations(r)) <==> |r.patterns| > 0
  {
    var advice := Recommendations(r);
    var lines := Render(advice);
    Warnings(r);
    RenderMember(advice, IncreaseComplexity);
    RenderMember(advice, CommonPassword);
    var w := AvoidPatterns(r.patterns);
    if Text(w) in lines {
      var k :| 0 <= k < |advice| && lines[k] == Text(w);
      if !advice[k].AvoidPatterns? {
        TextDistinct(advice[k], w);
      }
      assert AvoidPatterns(advice[k].names) in advice;
    }
    if |r.patterns| > 0 {
      assert w in advice;
      var k :| 0 <= k < |advice| && advice[k] == w;
      assert lines[k] == Text(w);
    }
  }

  /** A line that is not the pattern warning is shown exactly when its
      advice is in the list. */
  lemma RenderMember(advice: seq<Advice>, a: Advice)
    requires !a.AvoidPatterns?
    ensures Text(a) in Render(advice) <==> a in advice
  {
    if Text(a) in Render(advice) {
      var k :| 0 <= k < |advice| && Render(advice)[k] == Text(a);
      if advice[k] != a {
        TextDistinct(advice[k], a);
      }
    }
  }

  /** No string is shown twice. */
  lemma ShownNoDuplicates(r: Report)
    ensures forall i, j :: 0 <= i < j < |Render(Recommendations(r))| ==>
      Render(Recommendations(r))[i] != Render(Recommendations(r))[j]
  {
    var advice := Recommendations(r);
    RecommendationsNoDuplicates(r);
    Warnings(r);
    forall i, j | 0 <= i < j < |advice|
      ensures Text(advice[i]) != Text(advice[j])
    {
      if advice[i].AvoidPatterns? && advice[j].AvoidPatterns? {
        assert false;
      } else {
        TextDistinct(advice[i], advice[j]);
      }
    }
  }

  /** Two texts that are both shown appear in the order of the tests. */
  lemma ShownFollowsTable(r: Report, i: nat, j: nat)
    requires i < j < |Rules(r)| && Rules(r)[i].fires && Rules(r)[j].fires
    ensures exists a, b ::
              0 <= a < b < |Render(Recommendations(r))|
              && Render(Recommendations(r))[a] == Text(Rules(r)[i].advice)
              && Render(Recommendations(r))[b] == Text(Rules(r)[j].advice)
  {
    AdviceFollowsTable(r, i, j);
    var advice := Recommendations(r);
    var a, b :| 0 <= a < b < |advice| && advice[a] == Rules(r)[i].advice && advice[b] == Rules(r)[j].advice;
    assert Render(advice)[a] == Text(Rules(r)[i].advice);
    assert Render(advice)[b] == Text(Rules(r)[j].advice);
  }

  // ---------------------------------------------------------------------
  // Entropy rating
  // ---------------------------------------------------------------------

  datatype EntropyRating = Excellent | Good | Weak

  function RatingOf(entropy: real): (g: EntropyRating)
    ensures g == Excellent <==> entropy > 52.0
    ensures g == Good <==> 29.0 < entropy <= 52.0
    ensures g == Weak <==> entropy <= 29.0
  {
    if entropy > 52.0 then Excellent
    else if entropy > 29.0 then Good
    else Weak
  }

  function RatingRank(g: EntropyRating): nat {
    match g
    case Weak => 0
    case Good => 1
    case Excellent => 2
  }

  function RatingSuffix(g: EntropyRating): string {
    match g
    case Excellent => " (Excellent)"
    case Good => " (Good)"
    case Weak => " (Weak)"
  }

  /** More entropy never earns a lower rating. */
  lemma RatingMonotone(e1: real, e2: real)
    requires e1 <= e2
    ensures RatingRank(RatingOf(e1)) <= RatingRank(RatingOf(e2))
  {
  }

  /** The text next to the entropy figure: the figure as already formatted,
      " bits", and the rating suffix. */
  method EntropyText(formatted: string, entropy: real) returns (text: string)
    ensures text == formatted + " bits" + RatingSuffix(RatingOf(entropy))
  {
    text := formatted + " bits";
    if entropy > 52.0 {
      text := text + " (Excellent)";
    } else if entropy > 29.0 {
      text := text + " (Good)";
    } else {
      text := text + " (Weak)";
    }
  }

  /** The suffix names the band: each of the three texts is shown exactly
      for its range of entropy. */
  lemma RatingText(entropy: real)
    ensures RatingSuffix(RatingOf(entropy)) == " (Excellent)" <==> entropy > 52.0
    ensures RatingSuffix(RatingOf(entropy)) == " (Good)" <==> 29.0 < entropy <= 52.0
    ensures RatingSuffix(RatingOf(entropy)) == " (Weak)" <==> entropy <= 29.0
  {
  }

  /** Complexity advice always comes with a Weak rating; the converse fails
      only at exactly 29 bits, which is rated Weak without the advice. */
  lemma ComplexityAdviceAndRating(r: Report)
    ensures IncreaseComplexity in Recommendations(r) ==> RatingOf(r.entropy) == Weak
    ensures RatingOf(r.entropy) == Weak && IncreaseComplexity !in Recommendations(r) ==> r.entropy == 29.0
  {
    Warnings(r);
  }
}
