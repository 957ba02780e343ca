/** Turning the language model's raw text into a structured report: the
    section parser, its quality checks, the report formatter, the artifact
    cleaner and the suspicious-pattern scan. */
module OutputParser {
  import opened Wrappers
  import opened GoStrings

  datatype ParsedOutput = ParsedOutput(summary: seq<string>, risks: seq<string>, actions: seq<string>)

  datatype Section = NoSection | SummarySection | RisksSection | ActionsSection

  /** "•" and "▪" as their UTF-8 bytes. */
  const Bullet := "\U{E2}\U{80}\U{A2}"
  const SmallSquare := "\U{E2}\U{96}\U{AA}"

  /** The section a trimmed line opens, if it is a header: its upper-cased
      text starts with "SUMMARY:", "RISKS:" or "ACTIONS:". */
  function HeaderOf(line: string): Option<Section> {
    var upper := ToUpper(line);
    if HasPrefix(upper, "SUMMARY:") then Some(SummarySection)
    else if HasPrefix(upper, "RISKS:") then Some(RisksSection)
    else if HasPrefix(upper, "ACTIONS:") then Some(ActionsSection)
    else None
  }

  /** The text of a non-header line: trimmed, then one "•", one "-", one "*"
      and one "▪" removed from the front in that order, each only if present,
      then trimmed again. */
  function ItemText(line: string): (r: string)
    ensures Trimmed(r)
  {
    TrimSpace(TrimPrefix(TrimPrefix(TrimPrefix(TrimPrefix(TrimSpace(line), Bullet), "-"), "*"), SmallSquare))
  }

  /** How the loop treats one raw line: skipped, a section header, or an item
      of the current section. */
  datatype LineKind = Blank | Header(section: Section) | Item(text: string)

  function Classify(raw: string): (k: LineKind)
    ensures k.Item? ==> k.text != "" && Trimmed(k.text)
  {
    var line := TrimSpace(raw);
    if line == "" then Blank
    else match HeaderOf(line)
      case Some(sec) => Header(sec)
      case None => if ItemText(line) == "" then Blank else Item(ItemText(line))
  }

  datatype ParseState = ParseState(section: Section, out: ParsedOutput)

  const Start := ParseState(NoSection, ParsedOutput([], [], []))

  /** Appends to the section's list unless it is full (3 summary lines, 3
      risks, 2 actions); items outside any section are dropped. */
  function AddItem(out: ParsedOutput, sec: Section, item: string): ParsedOutput {
    match sec
    case SummarySection => if |out.summary| < 3 then out.(summary := out.summary + [item]) else out
    case RisksSection => if |out.risks| < 3 then out.(risks := out.risks + [item]) else out
    case ActionsSection => if |out.actions| < 2 then out.(actions := out.actions + [item]) else out
    case NoSection => out
  }

  /** One iteration of the line loop. */
  function Step(st: ParseState, k: LineKind): ParseState {
    match k
    case Blank => st
    case Header(sec) => st.(section := sec)
    case Item(text) => st.(out := AddItem(st.out, st.section, text))
  }

  /** Classify by cases, in the order the loop tests them. */
  lemma ClassifyCases(raw: string)
    ensures var line := TrimSpace(raw);
      if line == "" then Classify(raw) == Blank
      else if HeaderOf(line).Some? then Classify(raw) == Header(HeaderOf(line).value)
      else if ItemText(line) == "" then Classify(raw) == Blank
      else Classify(raw) == Item(ItemText(line))
  {
  }

  /** The kind of every line. */
  function Kinds(lines: seq<string>): (ks: seq<LineKind>)
    ensures |ks| == |lines| && forall i :: 0 <= i < |lines| ==> ks[i] == Classify(lines[i])
  {
    seq(|lines|, i requires 0 <= i < |lines| => Classify(lines[i]))
  }

  /** Every item Classify produces is non-empty and trimmed. */
  predicate ItemsWellFormed(ks: seq<LineKind>) {
    forall i :: 0 <= i < |ks| && ks[i].Item? ==> ks[i].text != "" && Trimmed(ks[i].text)
  }

  /** The loop over the first |ks| lines. */
  function Run(ks: seq<LineKind>): ParseState
    decreases |ks|
  {
    if ks == [] then Start else Step(Run(ks[..|ks| - 1]), ks[|ks| - 1])
  }

  datatype ParseError = EmptyOutput | NoSummary

  function ParseSpec(output: string): Result<ParsedOutput, ParseError> {
    if output == "" then Err(EmptyOutput)
    else
      var st := Run(Kinds(Split(output, '\n')));
      if st.out.summary == [] then Err(NoSummary) else Ok(st.out)
  }

  /** Parser.Parse. */
  method Parse(output: string) returns (r: Result<ParsedOutput, ParseError>)
    ensures r == ParseSpec(output)
  {
    if output == "" {
      return Err(EmptyOutput);
    }
    var summary: seq<string> := [];
    var risks: seq<string> := [];
    var actions: seq<string> := [];
    var lines := Split(output, '\n');
    ghost var ks := Kinds(lines);
    var current := NoSection;
    for i := 0 to |lines|
      invariant Run(ks[..i]) == ParseState(current, ParsedOutput(summary, risks, actions))
    {
      assert ks[..i + 1][..i] == ks[..i];
      current, summary, risks, actions := ParseLine(current, summary, risks, actions, lines[i]);
    }
    assert ks[..|lines|] == ks;
    if |summary| == 0 {
      return Err(NoSummary);
    }
    return Ok(ParsedOutput(summary, risks, actions));
  }

  /** The body of the line loop for one raw line. */
  method ParseLine(current: Section, summary: seq<string>, risks: seq<string>, actions: seq<string>, raw: string)
    returns (current': Section, summary': seq<string>, risks': seq<string>, actions': seq<string>)
    ensures ParseState(current', ParsedOutput(summary', risks', actions'))
         == Step(ParseState(current, ParsedOutput(summary, risks, actions)), Classify(raw))
  {
    current', summary', risks', actions' := current, summary, risks, actions;
    var kind := ClassifyLine(raw);
    match kind {
      case Blank =>
      case Header(sec) =>
        current' := sec;
      case Item(content) =>
        summary', risks', actions' := AddContent(current, summary, risks, actions, content);
    }
  }

  /** The tests of the loop body: a blank line, a header, or the item text
      (blank again when only markers were left). */
  method ClassifyLine(raw: string) returns (kind: LineKind)
    ensures kind == Classify(raw)
  {
    ClassifyCases(raw);
    var line := TrimSpace(raw);
    if line == "" {
      return Blank;
    }
    var header := HeaderOf(line);
    if header.Some? {
      return Header(header.value);
    }
    var content := ItemText(line);
    if content == "" {
      return Blank;
    }
    return Item(content);
  }

  /** The capped append of one item to the current section. */
  method AddContent(current: Section, summary: seq<string>, risks: seq<string>, actions: seq<string>, content: string)
    returns (summary': seq<string>, risks': seq<string>, actions': seq<string>)
    ensures ParsedOutput(summary', risks', actions') == AddItem(ParsedOutput(summary, risks, actions), current, content)
  {
    summary', risks', actions' := summary, risks, actions;
    match current {
      case SummarySection =>
        if |summary| < 3 {
          summary' := summary + [content];
        }
      case RisksSection =>
        if |risks| < 3 {
          risks' := risks + [content];
        }
      case ActionsSection =>
        if |actions| < 2 {
          actions' := actions + [content];
        }
      case NoSection =>
    }
  }

  // ---- An independent description of what the loop extracts -----------------

  /** The section in effect after the given lines: the one opened by the last
      header among them. */
  function SectionAfter(ks: seq<LineKind>): Section
    decreases |ks|
  {
    if ks == [] then NoSection
    else match ks[|ks| - 1]
      case Header(sec) => sec
      case _ => SectionAfter(ks[..|ks| - 1])
  }

  /** Every item of `sec`, in input order and without any cap: the item lines
      whose section is `sec`. */
  function ItemsIn(ks: seq<LineKind>, sec: Section): seq<string>
    decreases |ks|
  {
    if ks == [] then []
    else
      var init := ks[..|ks| - 1];
      var k := ks[|ks| - 1];
      ItemsIn(init, sec) + (if k.Item? && SectionAfter(init) == sec then [k.text] else [])
  }

  function Take(xs: seq<string>, n: nat): (r: seq<string>)
    ensures |r| <= n && r <= xs
    ensures |xs| <= n ==> r == xs
  {
    if |xs| <= n then xs else xs[..n]
  }

  lemma TakeSnoc(xs: seq<string>, x: string, n: nat)
    ensures Take(xs + [x], n) == if |Take(xs, n)| < n then Take(xs, n) + [x] else Take(xs, n)
  {
    if |xs| >= n {
      assert (xs + [x])[..n] == xs[..n];
    }
  }

  /** The state after the loop: the section of the last header, and for each
      section the first 3, 3 or 2 of its items. */
  function Capped(ks: seq<LineKind>): ParseState {
    ParseState(SectionAfter(ks),
      ParsedOutput(Take(ItemsIn(ks, SummarySection), 3), Take(ItemsIn(ks, RisksSection), 3),
                   Take(ItemsIn(ks, ActionsSection), 2)))
  }

  lemma SectionAfterSnoc(init: seq<LineKind>, k: LineKind)
    ensures SectionAfter(init + [k]) == if k.Header? then k.section else SectionAfter(init)
  {
    assert (init + [k])[..|init|] == init;
  }

  lemma ItemsInSnoc(init: seq<LineKind>, k: LineKind, sec: Section)
    ensures ItemsIn(init + [k], sec) ==
      ItemsIn(init, sec) + (if k.Item? && SectionAfter(init) == sec then [k.text] else [])
  {
    assert (init + [k])[..|init|] == init;
  }

  /** The reference description takes one line at a time just as Step does. */
  lemma CappedSnoc(init: seq<LineKind>, k: LineKind)
    ensures Capped(init + [k]) == Step(Capped(init), k)
  {
    SectionAfterSnoc(init, k);
    ItemsInSnoc(init, k, SummarySection);
    ItemsInSnoc(init, k, RisksSection);
    ItemsInSnoc(init, k, ActionsSection);
    match k {
      case Blank =>
      case Header(_) =>
      case Item(text) =>
        match SectionAfter(init) {
          case NoSection =>
          case SummarySection => TakeSnoc(ItemsIn(init, SummarySection), text, 3);
          case RisksSection => TakeSnoc(ItemsIn(init, RisksSection), text, 3);
          case ActionsSection => TakeSnoc(ItemsIn(init, ActionsSection), text, 2);
        }
    }
  }

  lemma {:induction false} RunIsCapped(ks: seq<LineKind>)
    ensures Run(ks) == Capped(ks)
    decreases |ks|
  {
    if ks != [] {
      var init := ks[..|ks| - 1];
      RunIsCapped(init);
      CappedSnoc(init, ks[|ks| - 1]);
      assert init + [ks[|ks| - 1]] == ks;
    }
  }

  /** Parse keeps at most 3 summary lines, 3 risks and 2 actions, and each
      list is the first of its section's items in input order. */
  lemma ParseCapsAndOrder(output: string)
    requires ParseSpec(output).Ok?
    ensures var p := ParseSpec(output).value;
      var ks := Kinds(Split(output, '\n'));
      |p.summary| <= 3 && |p.risks| <= 3 && |p.actions| <= 2
      && p.summary != []
      && p.summary <= ItemsIn(ks, SummarySection) && p.risks <= ItemsIn(ks, RisksSection)
      && p.actions <= ItemsIn(ks, ActionsSection)
  {
    RunIsCapped(Kinds(Split(output, '\n')));
  }

  /** A section with fewer items than its cap keeps all of them. */
  lemma ParseKeepsShortSections(output: string)
    requires ParseSpec(output).Ok?
    ensures var p := ParseSpec(output).value;
      var ks := Kinds(Split(output, '\n'));
      (|ItemsIn(ks, RisksSection)| <= 3 ==> p.risks == ItemsIn(ks, RisksSection))
      && (|ItemsIn(ks, ActionsSection)| <= 2 ==> p.actions == ItemsIn(ks, ActionsSection))
      && (|ItemsIn(ks, SummarySection)| <= 3 ==> p.summary == ItemsIn(ks, SummarySection))
  {
    RunIsCapped(Kinds(Split(output, '\n')));
  }

  predicate AllTrimmed(xs: seq<string>) {
    forall i :: 0 <= i < |xs| ==> xs[i] != "" && Trimmed(xs[i])
  }

  lemma KindsWellFormed(lines: seq<string>)
    ensures ItemsWellFormed(Kinds(lines))
  {
    var ks := Kinds(lines);
    forall i | 0 <= i < |ks| && ks[i].Item? ensures ks[i].text != "" && Trimmed(ks[i].text) {
      assert ks[i] == Classify(lines[i]);
    }
  }

  /** Every collected item is non-empty and has no surrounding whitespace. */
  lemma {:induction false} ItemsAreTrimmed(ks: seq<LineKind>, sec: Section)
    requires ItemsWellFormed(ks)
    ensures AllTrimmed(ItemsIn(ks, sec))
    decreases |ks|
  {
    if ks != [] {
      var init := ks[..|ks| - 1];
      assert forall i :: 0 <= i < |init| ==> init[i] == ks[i];
      ItemsAreTrimmed(init, sec);
      var k := ks[|ks| - 1];
      var tail: seq<string> := if k.Item? && SectionAfter(init) == sec then [k.text] else [];
      assert ItemsIn(ks, sec) == ItemsIn(init, sec) + tail;
      forall i | 0 <= i < |ItemsIn(ks, sec)| ensures ItemsIn(ks, sec)[i] != "" && Trimmed(ItemsIn(ks, sec)[i]) {
        if i >= |ItemsIn(init, sec)| {
          assert ItemsIn(ks, sec)[i] == k.text;
        }
      }
    }
  }

  lemma PrefixTrimmed(xs: seq<string>, ys: seq<string>)
    requires AllTrimmed(xs) && ys <= xs
    ensures AllTrimmed(ys)
  {
    forall i | 0 <= i < |ys| ensures ys[i] != "" && Trimmed(ys[i]) {
      assert ys[i] == xs[i];
    }
  }

  /** So every summary line, risk and action Parse returns is non-empty and
      trimmed. */
  lemma ParsedItemsTrimmed(output: string)
    requires ParseSpec(output).Ok?
    ensures var p := ParseSpec(output).value;
      AllTrimmed(p.summary) && AllTrimmed(p.risks) && AllTrimmed(p.actions)
  {
    var ks := Kinds(Split(output, '\n'));
    KindsWellFormed(Split(output, '\n'));
    RunIsCapped(ks);
    ItemsAreTrimmed(ks, SummarySection);
    ItemsAreTrimmed(ks, RisksSection);
    ItemsAreTrimmed(ks, ActionsSection);
    PrefixTrimmed(ItemsIn(ks, SummarySection), Run(ks).out.summary);
    PrefixTrimmed(ItemsIn(ks, RisksSection), Run(ks).out.risks);
    PrefixTrimmed(ItemsIn(ks, ActionsSection), Run(ks).out.actions);
  }

  /** A section no header opens collects nothing: in particular lines before
      the first header are dropped. */
  lemma {:induction false} UnopenedSectionEmpty(ks: seq<LineKind>, sec: Section)
    requires forall i :: 0 <= i < |ks| ==> ks[i] != Header(sec)
    requires sec != NoSection
    ensures SectionAfter(ks) != sec
    ensures ItemsIn(ks, sec) == []
    decreases |ks|
  {
    if ks != [] {
      var init := ks[..|ks| - 1];
      assert forall i :: 0 <= i < |init| ==> init[i] == ks[i];
      UnopenedSectionEmpty(init, sec);
    }
  }

  /** Text without a SUMMARY header fails to parse, e.g. one with only RISKS
      and ACTIONS sections. */
  lemma NoSummaryHeaderFails(output: string)
    requires output != ""
    requires forall i :: 0 <= i < |Split(output, '\n')| ==>
      HeaderOf(TrimSpace(Split(output, '\n')[i])) != Some(SummarySection)
    ensures ParseSpec(output) == Err(NoSummary)
  {
    var ks := Kinds(Split(output, '\n'));
    UnopenedSectionEmpty(ks, SummarySection);
    RunIsCapped(ks);
  }

  /** A space followed by trimmed text trims to that text. */
  lemma SpaceThenTrimmed(item: string)
    requires item != [] && Trimmed(item)
    ensures TrimSpace(" " + item) == item
  {
    var s := " " + item;
    assert s[1..] == item;
    assert TrimLeft(s, Whitespace) == TrimLeft(item, Whitespace) == item;
    assert TrimRight(item, Whitespace) == item;
  }

  /** Text that starts with a bullet and ends with trimmed text is trimmed. */
  lemma MarkedIsTrimmed(marker: string, item: string)
    requires marker != [] && marker[0] !in Whitespace
    requires item != [] && Trimmed(item)
    ensures TrimSpace(marker + item) == marker + item
  {
    var s := marker + item;
    assert s[0] == marker[0] && s[|s| - 1] == item[|item| - 1];
    TrimSpaceOfTrimmed(s);
  }

  /** A string whose first byte differs from the pattern's does not start
      with it. */
  lemma FirstByteDiffers(s: string, p: string)
    requires s != [] && p != [] && s[0] != p[0]
    ensures TrimPrefix(s, p) == s
  {
    if |p| <= |s| {
      assert s[..|p|][0] == s[0];
    }
  }

  /** The cut of the "-", "*" and "▪" markers leaves text starting with a
      space untouched, and the final trim then drops that space. */
  lemma SpacedRest(item: string)
    requires item != [] && Trimmed(item)
    ensures TrimSpace(TrimPrefix(TrimPrefix(TrimPrefix(" " + item, "-"), "*"), SmallSquare)) == item
  {
    var t := " " + item;
    FirstByteDiffers(t, "-");
    FirstByteDiffers(t, "*");
    FirstByteDiffers(t, SmallSquare);
    SpaceThenTrimmed(item);
  }

  /** "- item" gives "item". */
  lemma DashItem(item: string)
    requires item != [] && Trimmed(item)
    ensures ItemText("- " + item) == item
  {
    var s := "- " + item;
    MarkedIsTrimmed("- ", item);
    FirstByteDiffers(s, Bullet);
    assert s[..1] == "-" && s[1..] == " " + item;
    SpacedRest(item);
  }

  /** "• item" gives "item". */
  lemma BulletItem(item: string)
    requires item != [] && Trimmed(item)
    ensures ItemText(Bullet + " " + item) == item
  {
    var s := Bullet + " " + item;
    MarkedIsTrimmed(Bullet + " ", item);
    assert s[..|Bullet|] == Bullet && s[|Bullet|..] == " " + item;
    SpacedRest(item);
  }

  /** The markers are stripped one after another, so "•-item" loses both:
      the text does not stop at the first marker found. */
  lemma BulletThenDashItem(item: string)
    requires item != [] && Trimmed(item)
    requires !HasPrefix(item, "*") && !HasPrefix(item, SmallSquare)
    ensures ItemText(Bullet + "-" + item) == item
  {
    var s := Bullet + "-" + item;
    MarkedIsTrimmed(Bullet + "-", item);
    assert s[..|Bullet|] == Bullet && s[|Bullet|..] == "-" + item;
    var t := "-" + item;
    assert t[..1] == "-" && t[1..] == item;
    TrimSpaceOfTrimmed(item);
  }

  // ---- Validate ----------------------------------------------------------------

  datatype QualityError =
    | NilOutput
    | EmptySummary
    | SummaryTooShort(index: nat)
    | SummaryTooLong(index: nat, length: nat)
    | RiskTooShort(index: nat)
    | ActionTooShort(index: nat)

  predicate GoodSummaryLine(line: string) {
    10 <= |line| <= 500
  }

  predicate GoodItem(item: string) {
    |item| >= 10
  }

  predicate Acceptable(p: ParsedOutput) {
    |p.summary| > 0
    && (forall i :: 0 <= i < |p.summary| ==> GoodSummaryLine(p.summary[i]))
    && (forall i :: 0 <= i < |p.risks| ==> GoodItem(p.risks[i]))
    && (forall i :: 0 <= i < |p.actions| ==> GoodItem(p.actions[i]))
  }

  /** Parser.Validate: the first failed check, in the order nil, empty
      summary, summary lines, risks, actions. Lengths are in bytes. */
  method Validate(parsed: Option<ParsedOutput>) returns (r: Option<QualityError>)
    ensures r.None? <==> parsed.Some? && Acceptable(parsed.value)
    ensures parsed.None? <==> r == Some(NilOutput)
    ensures parsed.Some? && parsed.value.summary == [] ==> r == Some(EmptySummary)
    ensures r.Some? && r.value.SummaryTooShort? ==>
      var s := parsed.value.summary; var i := r.value.index;
      i < |s| && |s[i]| < 10 && forall j :: 0 <= j < i ==> GoodSummaryLine(s[j])
    ensures r.Some? && r.value.SummaryTooLong? ==>
      var s := parsed.value.summary; var i := r.value.index;
      i < |s| && |s[i]| > 500 && r.value.length == |s[i]| && forall j :: 0 <= j < i ==> GoodSummaryLine(s[j])
    ensures r.Some? && r.value.RiskTooShort? ==>
      var p := parsed.value; var i := r.value.index;
      |p.summary| > 0 && (forall j :: 0 <= j < |p.summary| ==> GoodSummaryLine(p.summary[j]))
      && i < |p.risks| && !GoodItem(p.risks[i]) && forall j :: 0 <= j < i ==> GoodItem(p.risks[j])
    ensures r.Some? && r.value.ActionTooShort? ==>
      var p := parsed.value; var i := r.value.index;
      |p.summary| > 0 && (forall j :: 0 <= j < |p.summary| ==> GoodSummaryLine(p.summary[j]))
      && (forall j :: 0 <= j < |p.risks| ==> GoodItem(p.risks[j]))
      && i < |p.actions| && !GoodItem(p.actions[i]) && forall j :: 0 <= j < i ==> GoodItem(p.actions[j])
  {
    if parsed.None? {
      return Some(NilOutput);
    }
    var p := parsed.value;
    if |p.summary| == 0 {
      return Some(EmptySummary);
    }
    for i := 0 to |p.summary|
      invariant forall j :: 0 <= j < i ==> GoodSummaryLine(p.summary[j])
    {
      if |p.summary[i]| < 10 {
        return Some(SummaryTooShort(i));
      }
      if |p.summary[i]| > 500 {
        return Some(SummaryTooLong(i, |p.summary[i]|));
      }
    }
    for i := 0 to |p.risks|
      invariant forall j :: 0 <= j < i ==> GoodItem(p.risks[j])
    {
      if |p.risks[i]| < 10 {
        return Some(RiskTooShort(i));
      }
    }
    for i := 0 to |p.actions|
      invariant forall j :: 0 <= j < i ==> GoodItem(p.actions[j])
    {
      if |p.actions[i]| < 10 {
        return Some(ActionTooShort(i));
      }
    }
    return None;
  }

  // ---- DetectHallucination ------------------------------------------------------

  const SuspiciousPatterns := ["http://", "https://", "www.", "version 99", "unknown manufacturer", "default password"]

  /** The three sections joined by single spaces. */
  function AllText(p: ParsedOutput): string {
    Join(p.summary, " ") + " " + Join(p.risks, " ") + " " + Join(p.actions, " ")
  }

  /** fmt.Sprintf("Suspicious pattern detected: %q", pattern) for the plain
      ASCII patterns above. */
  function PatternMessage(pattern: string): string {
    "Suspicious pattern detected: \"" + pattern + "\""
  }

  /** The message of every pattern that occurs in `text`, in pattern order. */
  function Flagged(text: string, patterns: seq<string>): (r: seq<string>)
    ensures |r| <= |patterns|
    ensures forall m :: m in r <==> exists p :: p in patterns && Contains(text, p) && m == PatternMessage(p)
    decreases |patterns|
  {
    if patterns == [] then []
    else
      var init := patterns[..|patterns| - 1];
      var last := patterns[|patterns| - 1];
      var found := Flagged(text, init);
      assert forall p :: p in patterns <==> p in init || p == last;
      found + (if Contains(text, last) then [PatternMessage(last)] else [])
  }

  lemma FlaggedSnoc(text: string, patterns: seq<string>, k: nat)
    requires k < |patterns|
    ensures Flagged(text, patterns[..k + 1])
         == Flagged(text, patterns[..k]) + (if Contains(text, patterns[k]) then [PatternMessage(patterns[k])] else [])
  {
    assert patterns[..k + 1][..k] == patterns[..k];
  }

  /** Parser.DetectHallucination. The facts text is accepted and not used. */
  method DetectHallucination(parsed: ParsedOutput, factsJSON: string) returns (found: seq<string>)
    ensures found == Flagged(ToLower(AllText(parsed)), SuspiciousPatterns)
  {
    var allTextLower := ToLower(AllText(parsed));
    found := FlagPatterns(allTextLower, SuspiciousPatterns);
  }

  /** The scan over the pattern list. */
  method FlagPatterns(text: string, patterns: seq<string>) returns (found: seq<string>)
    ensures found == Flagged(text, patterns)
  {
    found := [];
    for k := 0 to |patterns|
      invariant found == Flagged(text, patterns[..k])
    {
      FlaggedSnoc(text, patterns, k);
      if Contains(text, patterns[k]) {
        found := found + [PatternMessage(patterns[k])];
      }
    }
    assert patterns[..|patterns|] == patterns;
  }

  /** A pattern is reported iff it occurs in the lower-cased text. */
  lemma HallucinationReported(parsed: ParsedOutput, pattern: string)
    requires pattern in SuspiciousPatterns
    ensures PatternMessage(pattern) in Flagged(ToLower(AllText(parsed)), SuspiciousPatterns)
            <==> Contains(ToLower(AllText(parsed)), pattern)
  {
    var text := ToLower(AllText(parsed));
    if PatternMessage(pattern) in Flagged(text, SuspiciousPatterns) {
      var q :| q in SuspiciousPatterns && Contains(text, q) && PatternMessage(pattern) == PatternMessage(q);
      assert PatternMessage(pattern)[30..|PatternMessage(pattern)| - 1] == pattern;
      assert PatternMessage(q)[30..|PatternMessage(q)| - 1] == q;
    }
  }

  // ---- Format -------------------------------------------------------------------

  const ReportHeader := "===== MINIBEAST SYSTEM REPORT ====="
  const ReportFooter := "===== END OF REPORT ====="
  const SummaryTitle := "SUMMARY:"
  const RisksTitle := "RISKS:"
  const ActionsTitle := "RECOMMENDED ACTIONS:"

  function Bulleted(items: seq<string>): (r: seq<string>)
    ensures |r| == |items| && forall i :: 0 <= i < |items| ==> r[i] == Bullet + " " + items[i]
  {
    seq(|items|, i requires 0 <= i < |items| => Bullet + " " + items[i])
  }

  /** A titled block: the title, one bullet line per item, a blank line. */
  function Block(title: string, items: seq<string>): seq<string> {
    [title] + Bulleted(items) + [""]
  }

  /** The lines of the report, each of which is written followed by "\n". */
  function ReportLines(p: ParsedOutput): seq<string> {
    [ReportHeader, ""] + Block(SummaryTitle, p.summary)
    + (if p.risks != [] then Block(RisksTitle, p.risks) else [])
    + (if p.actions != [] then Block(ActionsTitle, p.actions) else [])
    + [ReportFooter]
  }

  /** Parser.Format. */
  method Format(parsed: ParsedOutput) returns (report: string)
    ensures report == Lines(ReportLines(parsed))
  {
    report := WriteLine("", [], ReportHeader);
    assert [] + [ReportHeader] == [ReportHeader];
    report := WriteLine(report, [ReportHeader], "");
    ghost var written := [ReportHeader] + [""];
    report := WriteBlock(report, written, SummaryTitle, parsed.summary);
    written := written + Block(SummaryTitle, parsed.summary);
    if |parsed.risks| > 0 {
      report := WriteBlock(report, written, RisksTitle, parsed.risks);
    } else {
      assert written + RisksPart(parsed) == written;
    }
    written := written + RisksPart(parsed);
    if |parsed.actions| > 0 {
      report := WriteBlock(report, written, ActionsTitle, parsed.actions);
    } else {
      assert written + ActionsPart(parsed) == written;
    }
    written := written + ActionsPart(parsed);
    report := WriteLine(report, written, ReportFooter);
    ReportLinesFramed(parsed);
  }

  function RisksPart(p: ParsedOutput): seq<string> {
    if p.risks != [] then Block(RisksTitle, p.risks) else []
  }

  function ActionsPart(p: ParsedOutput): seq<string> {
    if p.actions != [] then Block(ActionsTitle, p.actions) else []
  }

  lemma ReportLinesFramed(p: ParsedOutput)
    ensures ReportLines(p)
         == [ReportHeader] + [""] + Block(SummaryTitle, p.summary) + RisksPart(p) + ActionsPart(p) + [ReportFooter]
  {
    assert [ReportHeader] + [""] == [ReportHeader, ""];
  }

  /** WriteString(line + "\n") on the builder. */
  method WriteLine(report0: string, ghost written: seq<string>, line: string) returns (report: string)
    requires report0 == Lines(written)
    ensures report == Lines(written + [line])
  {
    report := report0 + line + "\n";
    LinesAppend(written, [line]);
    assert [line][1..] == [];
  }

  /** A title line, one bullet line per item, and a blank line. */
  method WriteBlock(report0: string, ghost written: seq<string>, title: string, items: seq<string>)
    returns (report: string)
    requires report0 == Lines(written)
    ensures report == Lines(written + Block(title, items))
  {
    report := WriteLine(report0, written, title);
    report := WriteItems(report, written + [title], items);
    report := WriteLine(report, written + [title] + Bulleted(items), "");
    assert written + [title] + Bulleted(items) + [""] == written + Block(title, items);
  }

  /** The builder loop over one section's items. */
  method WriteItems(report0: string, ghost written: seq<string>, items: seq<string>) returns (report: string)
    requires report0 == Lines(written)
    ensures report == Lines(written + Bulleted(items))
  {
    report := report0;
    assert written + Bulleted(items[..0]) == written;
    for i := 0 to |items|
      invariant report == Lines(written + Bulleted(items[..i]))
    {
      ghost var before := written + Bulleted(items[..i]);
      report := report + Bullet + " ";
      report := report + items[i];
      report := report + "\n";
      LinesAppend(before, [Bullet + " " + items[i]]);
      assert [Bullet + " " + items[i]][1..] == [];
      assert Bulleted(items[..i + 1]) == Bulleted(items[..i]) + [Bullet + " " + items[i]];
      assert written + Bulleted(items[..i + 1]) == before + [Bullet + " " + items[i]];
    }
    assert items[..|items|] == items;
  }

  /** No line contains a newline byte. */
  predicate SingleLines(ls: seq<string>) {
    forall i :: 0 <= i < |ls| ==> '\n' !in ls[i]
  }

  lemma SingleLinesAppend(a: seq<string>, b: seq<string>)
    requires SingleLines(a) && SingleLines(b)
    ensures SingleLines(a + b)
  {
    forall i | 0 <= i < |a + b| ensures '\n' !in (a + b)[i] {
      if i >= |a| {
        assert (a + b)[i] == b[i - |a|];
      }
    }
  }

  lemma BlockSingleLines(title: string, items: seq<string>)
    requires '\n' !in title && SingleLines(items)
    ensures SingleLines(Block(title, items))
  {
    var bs := Bulleted(items);
    forall i | 0 <= i < |bs| ensures '\n' !in bs[i] {
      assert bs[i] == Bullet + " " + items[i];
    }
    SingleLinesAppend([title], bs);
    SingleLinesAppend([title] + bs, [""]);
  }

  lemma TitlesSingleLine()
    ensures '\n' !in SummaryTitle && '\n' !in RisksTitle && '\n' !in ActionsTitle
  {
  }

  lemma FramingSingleLines()
    ensures SingleLines([ReportHeader, ""]) && SingleLines([ReportFooter])
  {
  }

  lemma ReportSingleLines(p: ParsedOutput)
    requires SingleLines(p.summary) && SingleLines(p.risks) && SingleLines(p.actions)
    ensures SingleLines(ReportLines(p))
  {
    TitlesSingleLine();
    FramingSingleLines();
    var head: seq<string> := [ReportHeader, ""];
    var sum := Block(SummaryTitle, p.summary);
    var risks := if p.risks != [] then Block(RisksTitle, p.risks) else [];
    var actions := if p.actions != [] then Block(ActionsTitle, p.actions) else [];
    BlockSingleLines(SummaryTitle, p.summary);
    BlockSingleLines(RisksTitle, p.risks);
    BlockSingleLines(ActionsTitle, p.actions);
    SingleLinesAppend(head, sum);
    SingleLinesAppend(head + sum, risks);
    SingleLinesAppend(head + sum + risks, actions);
    SingleLinesAppend(head + sum + risks + actions, [ReportFooter]);
  }

  /** For items without a newline (all Parse produces), splitting the report
      on "\n" recovers exactly its lines. */
  lemma ReportSplitsIntoLines(p: ParsedOutput)
    requires SingleLines(p.summary) && SingleLines(p.risks) && SingleLines(p.actions)
    ensures Split(Lines(ReportLines(p)), '\n') == ReportLines(p) + [""]
  {
    ReportSingleLines(p);
    SplitLines(ReportLines(p));
  }

  /** The RISKS and RECOMMENDED ACTIONS blocks appear exactly when their
      sections are non-empty; the SUMMARY block always does. */
  lemma SectionTitlesPresent(p: ParsedOutput)
    ensures SummaryTitle in ReportLines(p)
    ensures RisksTitle in ReportLines(p) <==> p.risks != []
    ensures ActionsTitle in ReportLines(p) <==> p.actions != []
  {
    var ls := ReportLines(p);
    assert ls[2] == SummaryTitle;
    BulletLinesAreNotTitles(p.summary);
    BulletLinesAreNotTitles(p.risks);
    BulletLinesAreNotTitles(p.actions);
    if p.risks != [] {
      assert ls[|Block(SummaryTitle, p.summary)| + 2] == RisksTitle;
    }
    if p.actions != [] {
      assert ls[|ls| - 1 - |Block(ActionsTitle, p.actions)|] == ActionsTitle;
    }
  }

  lemma BulletLinesAreNotTitles(items: seq<string>)
    ensures RisksTitle !in Bulleted(items) && ActionsTitle !in Bulleted(items) && SummaryTitle !in Bulleted(items)
  {
    forall l | l in Bulleted(items) ensures l[0] == '\U{E2}' {
      var i :| 0 <= i < |items| && Bulleted(items)[i] == l;
    }
  }

  // ---- CleanOutput --------------------------------------------------------------

  const ArtifactPrefixes := ["Assistant:", "Response:", "Output:"]
  const ArtifactSuffixes := ["</s>", "[/INST]", "</output>"]

  /** TrimPrefix with each of `ps` in turn. */
  function StripPrefixes(s: string, ps: seq<string>): (r: string)
    ensures |r| <= |s|
    decreases |ps|
  {
    if ps == [] then s else StripPrefixes(TrimPrefix(s, ps[0]), ps[1..])
  }

  /** TrimSuffix with each of `ps` in turn. */
  function StripSuffixes(s: string, ps: seq<string>): (r: string)
    ensures |r| <= |s|
    decreases |ps|
  {
    if ps == [] then s else StripSuffixes(TrimSuffix(s, ps[0]), ps[1..])
  }

  function Cleaned(output: string): string {
    TrimSpace(StripSuffixes(StripPrefixes(output, ArtifactPrefixes), ArtifactSuffixes))
  }

  /** Parser.CleanOutput. */
  method CleanOutput(output: string) returns (r: string)
    ensures r == Cleaned(output)
    ensures Trimmed(r) && |r| <= |output|
  {
    var cleaned := TrimEachPrefix(output, ArtifactPrefixes);
    cleaned := TrimEachSuffix(cleaned, ArtifactSuffixes);
    return TrimSpace(cleaned);
  }

  /** The loop over the prefix list. */
  method TrimEachPrefix(s: string, ps: seq<string>) returns (r: string)
    ensures r == StripPrefixes(s, ps)
  {
    r := s;
    for i := 0 to |ps|
      invariant StripPrefixes(r, ps[i..]) == StripPrefixes(s, ps)
    {
      assert ps[i..][1..] == ps[i + 1..];
      r := TrimPrefix(r, ps[i]);
    }
    assert ps[|ps|..] == [];
  }

  /** The loop over the suffix list. */
  method TrimEachSuffix(s: string, ps: seq<string>) returns (r: string)
    ensures r == StripSuffixes(s, ps)
  {
    r := s;
    for i := 0 to |ps|
      invariant StripSuffixes(r, ps[i..]) == StripSuffixes(s, ps)
    {
      assert ps[i..][1..] == ps[i + 1..];
      r := TrimSuffix(r, ps[i]);
    }
    assert ps[|ps|..] == [];
  }

  lemma {:induction false} StripPrefixesAbsent(s: string, ps: seq<string>)
    requires forall i :: 0 <= i < |ps| ==> !HasPrefix(s, ps[i])
    ensures StripPrefixes(s, ps) == s
    decreases |ps|
  {
    if ps != [] {
      assert forall i :: 1 <= i < |ps| ==> ps[1..][i - 1] == ps[i];
      StripPrefixesAbsent(s, ps[1..]);
    }
  }

  lemma {:induction false} StripSuffixesAbsent(s: string, ps: seq<string>)
    requires forall i :: 0 <= i < |ps| ==> !HasSuffix(s, ps[i])
    ensures StripSuffixes(s, ps) == s
    decreases |ps|
  {
    if ps != [] {
      assert forall i :: 1 <= i < |ps| ==> ps[1..][i - 1] == ps[i];
      StripSuffixesAbsent(s, ps[1..]);
    }
  }

  /** Text that is trimmed and carries none of the artifacts passes unchanged. */
  lemma PlainTextUnchanged(s: string)
    requires Trimmed(s)
    requires forall i :: 0 <= i < |ArtifactPrefixes| ==> !HasPrefix(s, ArtifactPrefixes[i])
    requires forall i :: 0 <= i < |ArtifactSuffixes| ==> !HasSuffix(s, ArtifactSuffixes[i])
    ensures Cleaned(s) == s
  {
    StripPrefixesAbsent(s, ArtifactPrefixes);
    StripSuffixesAbsent(s, ArtifactSuffixes);
    TrimSpaceOfTrimmed(s);
  }

  /** A leading "Assistant:" is removed, and so is the whitespace after it. */
  lemma AssistantPrefixRemoved(t: string)
    requires forall i :: 1 <= i < |ArtifactPrefixes| ==> !HasPrefix(t, ArtifactPrefixes[i])
    requires forall i :: 0 <= i < |ArtifactSuffixes| ==> !HasSuffix(t, ArtifactSuffixes[i])
    ensures Cleaned(ArtifactPrefixes[0] + t) == TrimSpace(t)
  {
    var ps := ArtifactPrefixes;
    var s := ps[0] + t;
    assert s[..|ps[0]|] == ps[0] && s[|ps[0]|..] == t;
    assert StripPrefixes(s, ps) == StripPrefixes(t, ps[1..]);
    StripPrefixesAbsent(t, ps[1..]);
    StripSuffixesAbsent(t, ArtifactSuffixes);
  }

  /** A trailing "</s>" is removed. */
  lemma EndTagRemoved(t: string)
    requires forall i :: 0 <= i < |ArtifactPrefixes| ==> !HasPrefix(t + ArtifactSuffixes[0], ArtifactPrefixes[i])
    requires forall i :: 1 <= i < |ArtifactSuffixes| ==> !HasSuffix(t, ArtifactSuffixes[i])
    ensures Cleaned(t + ArtifactSuffixes[0]) == TrimSpace(t)
  {
    var ps := ArtifactSuffixes;
    var s := t + ps[0];
    StripPrefixesAbsent(s, ArtifactPrefixes);
    assert s[|s| - |ps[0]|..] == ps[0] && s[..|s| - |ps[0]|] == t;
    assert StripSuffixes(s, ps) == StripSuffixes(t, ps[1..]);
    StripSuffixesAbsent(t, ps[1..]);
  }
}
