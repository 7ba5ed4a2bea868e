/** The structure stage's collaborator call and the parser that turns its free text into
    a course skeleton (app/agents/structure_agent.py). */
module StructureAgent {
  import opened Wrappers
  import opened Strings
  import ResearchAgent

  const TitleHeader: string := "COURSE TITLE:"
  const DescriptionHeader: string := "COURSE DESCRIPTION:"
  const RationaleHeader: string := "RATIONALE:"
  const ModulePrefix: string := "MODULE "
  const LessonPrefix: string := "- Lesson "
  const BulletPrefix: string := "- "

  /** A lesson as the structure names it; its content is filled in later. */
  datatype LessonSkeleton = LessonSkeleton(title: string, content: string)

  datatype ModuleSkeleton = ModuleSkeleton(title: string, lessons: seq<LessonSkeleton>)

  /** What `_parse_structure_result` returns: the four keys are always present. */
  datatype CourseStructure = CourseStructure(
    courseTitle: string,
    courseDescription: string,
    modules: seq<ModuleSkeleton>,
    rationale: string)

  const EmptyStructure: CourseStructure := CourseStructure("", "", [], "")
  const EmptyModule: ModuleSkeleton := ModuleSkeleton("", [])

  /** The variables the structure prompt is filled with; the key concepts are sent as a
      bullet list. */
  datatype StructurePrompt = StructurePrompt(
    topic: string,
    audience: string,
    duration: string,
    researchSummary: string,
    keyConcepts: string)

  // ---------------------------------------------------------------------------
  // Lessons and modules.

  /** The title of a lesson line (already stripped): the text after its first colon,
      stripped, or without a colon the line with its first "- " removed, stripped. */
  function LessonTitle(line: string): string {
    var parts := SplitOnce(line, ":");
    if |parts| > 1 then Strip(parts[1]) else Strip(ReplaceFirst(line, BulletPrefix, ""))
  }

  /** The lesson a line of a module block gives, if it is a bullet line. */
  function LessonOf(line: string): Option<LessonSkeleton> {
    var t := Strip(line);
    if StartsWith(t, LessonPrefix) || StartsWith(t, BulletPrefix) then
      Some(LessonSkeleton(LessonTitle(t), ""))
    else
      None
  }

  /** What `read` makes of `lines`, in order, skipping the lines it rejects. */
  function Collect<T>(read: string -> Option<T>, lines: seq<string>): seq<T>
    decreases |lines|
  {
    if |lines| == 0 then []
    else
      Collect(read, lines[..|lines| - 1]) +
      match read(lines[|lines| - 1]) case None => [] case Some(x) => [x]
  }

  /** Reading one more line adds what it gives. */
  lemma CollectStep<T>(read: string -> Option<T>, lines: seq<string>, n: nat)
    requires n < |lines|
    ensures Collect(read, lines[..n + 1]) ==
      Collect(read, lines[..n]) + match read(lines[n]) case None => [] case Some(x) => [x]
  {
    assert lines[..n + 1][..n] == lines[..n];
  }

  /** The module a block starting with "MODULE " gives: its first line, stripped, is the
      title, and the lessons come from the lines after it. */
  function ModuleOf(block: string): ModuleSkeleton {
    ModuleSkeleton(Strip(Split(block, "\n")[0]), Collect(LessonOf, LessonLines(block)))
  }

  /** The lines of a module block after its first. */
  function LessonLines(block: string): seq<string> {
    Split(block, "\n")[1..]
  }

  // ---------------------------------------------------------------------------
  // Blocks.

  /** The rule a stripped block matches, the first match winning (`KindPriority`). */
  datatype BlockKind = TitleBlock | DescriptionBlock | RationaleBlock | ModuleBlock | OtherBlock

  function Kind(block: string): BlockKind {
    if Contains(block, TitleHeader) then TitleBlock
    else if Contains(block, DescriptionHeader) then DescriptionBlock
    else if Contains(block, RationaleHeader) then RationaleBlock
    else if StartsWith(block, ModulePrefix) then ModuleBlock
    else OtherBlock
  }

  /** A stripped block matches a rule exactly when it passes that rule's test and fails
      every earlier one; it matches none when it fails all four. */
  lemma KindPriority(block: string)
    ensures Kind(block) == TitleBlock <==> Contains(block, TitleHeader)
    ensures Kind(block) == DescriptionBlock <==>
      !Contains(block, TitleHeader) && Contains(block, DescriptionHeader)
    ensures Kind(block) == RationaleBlock <==>
      !Contains(block, TitleHeader) && !Contains(block, DescriptionHeader) &&
      Contains(block, RationaleHeader)
    ensures Kind(block) == ModuleBlock <==>
      !Contains(block, TitleHeader) && !Contains(block, DescriptionHeader) &&
      !Contains(block, RationaleHeader) && StartsWith(block, ModulePrefix)
    ensures Kind(block) == OtherBlock <==>
      !Contains(block, TitleHeader) && !Contains(block, DescriptionHeader) &&
      !Contains(block, RationaleHeader) && !StartsWith(block, ModulePrefix)
  {
  }

  /** What one blank-line-separated section offers the parser once stripped: the rule it
      matches, the header field's new text, or the module it adds. */
  datatype BlockView = BlockView(kind: BlockKind, text: string, added: ModuleSkeleton)

  function View(section: string): BlockView {
    var block := Strip(section);
    match Kind(block)
    case TitleBlock => BlockView(TitleBlock, Strip(Replace(block, TitleHeader, "")), EmptyModule)
    case DescriptionBlock =>
      BlockView(DescriptionBlock, Strip(Replace(block, DescriptionHeader, "")), EmptyModule)
    case RationaleBlock => BlockView(RationaleBlock, Strip(Replace(block, RationaleHeader, "")), EmptyModule)
    case ModuleBlock => BlockView(ModuleBlock, "", ModuleOf(block))
    case OtherBlock => BlockView(OtherBlock, "", EmptyModule)
  }

  function Views(sections: seq<string>): (r: seq<BlockView>)
    ensures |r| == |sections|
    ensures forall i :: 0 <= i < |sections| ==> r[i] == View(sections[i])
  {
    seq(|sections|, i requires 0 <= i < |sections| => View(sections[i]))
  }

  /** One iteration of the parser's loop: a header block overwrites its field, a module
      block appends its module, any other block is dropped. */
  function StructureStep(sd: CourseStructure, b: BlockView): CourseStructure {
    match b.kind
    case TitleBlock => sd.(courseTitle := b.text)
    case DescriptionBlock => sd.(courseDescription := b.text)
    case RationaleBlock => sd.(rationale := b.text)
    case ModuleBlock => sd.(modules := sd.modules + [b.added])
    case OtherBlock => sd
  }

  /** The structure after the first `n` blocks. */
  function StructureFold(bs: seq<BlockView>): CourseStructure
    decreases |bs|
  {
    if |bs| == 0 then EmptyStructure else StructureStep(StructureFold(bs[..|bs| - 1]), bs[|bs| - 1])
  }

  lemma FoldStep(bs: seq<BlockView>, n: nat)
    requires n < |bs|
    ensures StructureFold(bs[..n + 1]) == StructureStep(StructureFold(bs[..n]), bs[n])
  {
    assert bs[..n + 1][..n] == bs[..n];
  }

  /** `_parse_structure_result`: the structure after all blank-line-separated blocks. */
  function ParseStructure(result: string): CourseStructure {
    var bs := Views(Split(result, "\n\n"));
    StructureFold(bs)
  }

  // ---------------------------------------------------------------------------
  // The parser as the source runs it.

  /** One pass of the inner loop's body: the lesson a line gives, if it is a bullet line. */
  method ParseLessonLine(line: string) returns (lesson: Option<LessonSkeleton>)
    ensures lesson == LessonOf(line)
  {
    var lessonLine := Strip(line);
    lesson := None;
    if StartsWith(lessonLine, LessonPrefix) || StartsWith(lessonLine, BulletPrefix) {
      var lessonParts := SplitOnce(lessonLine, ":");
      var lessonTitle;
      if |lessonParts| > 1 {
        lessonTitle := Strip(lessonParts[1]);
      } else {
        lessonTitle := Strip(ReplaceFirst(lessonLine, BulletPrefix, ""));
      }
      lesson := Some(LessonSkeleton(lessonTitle, ""));
    }
  }

  /** The module branch of the loop body: the title line and the inner loop over the
      remaining lines. */
  method ParseModule(block: string) returns (m: ModuleSkeleton)
    ensures m == ModuleOf(block)
  {
    var lines := Split(block, "\n");
    var moduleTitle := Strip(lines[0]);
    var lessons: seq<LessonSkeleton> := [];
    ghost var rest := lines[1..];
    var i := 1;
    while i < |lines|
      invariant 1 <= i <= |lines|
      invariant lessons == Collect(LessonOf, rest[..i - 1])
    {
      CollectStep(LessonOf, rest, i - 1);
      assert rest[i - 1] == lines[i];
      var lesson := ParseLessonLine(lines[i]);
      if lesson.Some? {
        lessons := lessons + [lesson.value];
      }
      i := i + 1;
    }
    assert rest[..i - 1] == rest;
    m := ModuleSkeleton(moduleTitle, lessons);
  }

  /** One pass of `_parse_structure_result`'s loop body over `section`. */
  method ParseBlock(section: string, sd: CourseStructure) returns (next: CourseStructure)
    ensures next == StructureStep(sd, View(section))
  {
    var block := Strip(section);
    if Contains(block, TitleHeader) {
      next := sd.(courseTitle := Strip(Replace(block, TitleHeader, "")));
    } else if Contains(block, DescriptionHeader) {
      next := sd.(courseDescription := Strip(Replace(block, DescriptionHeader, "")));
    } else if Contains(block, RationaleHeader) {
      next := sd.(rationale := Strip(Replace(block, RationaleHeader, "")));
    } else if StartsWith(block, ModulePrefix) {
      var currentModule := ParseModule(block);
      next := sd.(modules := sd.modules + [currentModule]);
    } else {
      next := sd;
    }
  }

  /** `_parse_structure_result`: the source's loop over the blank-line-separated blocks. */
  method ParseStructureResult(result: string) returns (sd: CourseStructure)
    ensures sd == ParseStructure(result)
  {
    sd := EmptyStructure;
    var sections := Split(result, "\n\n");
    ghost var views := Views(sections);
    var i := 0;
    while i < |sections|
      invariant 0 <= i <= |sections|
      invariant sd == StructureFold(views[..i])
    {
      FoldStep(views, i);
      sd := ParseBlock(sections[i], sd);
      i := i + 1;
    }
    assert views[..i] == views;
  }

  /** `create_structure`: the prompt carries the research summary and the key concepts as
      a bullet list; a failing collaborator call is raised, otherwise its reply is parsed. */
  function CreateStructure(topic: string, rd: ResearchAgent.ResearchRecord, audience: string,
    duration: string, call: StructurePrompt -> Outcome): (r: Result<CourseStructure>)
    ensures var p := StructurePrompt(topic, audience, duration, ResearchAgent.SummaryOf(rd),
        FormatList(ResearchAgent.KeyConceptsOf(rd)));
      (call(p).Fail? ==> r == Failure(call(p).msg)) &&
      (call(p).Ok? ==> r == Success(ParseStructure(call(p).text)))
  {
    var prompt := StructurePrompt(topic, audience, duration, ResearchAgent.SummaryOf(rd),
      FormatList(ResearchAgent.KeyConceptsOf(rd)));
    match call(prompt)
    case Fail(msg) => Failure(msg)
    case Ok(text) => Success(ParseStructure(text))
  }

  // ---------------------------------------------------------------------------
  // What the parser promises.

  /** The header field a rule writes ("" for the rules that write none). */
  function HeaderField(kind: BlockKind, sd: CourseStructure): string {
    match kind
    case TitleBlock => sd.courseTitle
    case DescriptionBlock => sd.courseDescription
    case RationaleBlock => sd.rationale
    case ModuleBlock => ""
    case OtherBlock => ""
  }

  predicate IsHeaderKind(kind: BlockKind) {
    kind == TitleBlock || kind == DescriptionBlock || kind == RationaleBlock
  }

  /** A block of a header's rule overwrites that field; any other block leaves it alone. */
  lemma StepField(sd: CourseStructure, b: BlockView, kind: BlockKind)
    requires IsHeaderKind(kind)
    ensures HeaderField(kind, StructureStep(sd, b)) ==
      if b.kind == kind then b.text else HeaderField(kind, sd)
  {
  }

  /** A header field holds the text of the last block of its rule: a later matching block
      overwrites an earlier one. */
  lemma {:induction false} LastHeaderWins(bs: seq<BlockView>, kind: BlockKind, k: nat)
    requires IsHeaderKind(kind)
    requires k < |bs| && bs[k].kind == kind
    requires forall j :: k < j < |bs| ==> bs[j].kind != kind
    ensures HeaderField(kind, StructureFold(bs)) == bs[k].text
    decreases |bs|
  {
    var n := |bs|;
    FoldStep(bs, n - 1);
    assert bs[..n] == bs;
    StepField(StructureFold(bs[..n - 1]), bs[n - 1], kind);
    if k < n - 1 {
      LastHeaderWins(bs[..n - 1], kind, k);
    }
  }

  /** A header field no block writes keeps its default "". */
  lemma {:induction false} HeaderDefault(bs: seq<BlockView>, kind: BlockKind)
    requires IsHeaderKind(kind)
    requires forall j :: 0 <= j < |bs| ==> bs[j].kind != kind
    ensures HeaderField(kind, StructureFold(bs)) == ""
    decreases |bs|
  {
    if |bs| > 0 {
      StepField(StructureFold(bs[..|bs| - 1]), bs[|bs| - 1], kind);
      HeaderDefault(bs[..|bs| - 1], kind);
    }
  }

  /** The modules the module blocks give, first to last. */
  function ModulesIn(bs: seq<BlockView>): seq<ModuleSkeleton>
    decreases |bs|
  {
    if |bs| == 0 then [] else ModuleOfBlock(bs[0]) + ModulesIn(bs[1..])
  }

  /** The module one block contributes: one for a module block, none otherwise. */
  function ModuleOfBlock(b: BlockView): seq<ModuleSkeleton> {
    if b.kind == ModuleBlock then [b.added] else []
  }

  lemma {:induction false} ModulesInSnoc(bs: seq<BlockView>, b: BlockView)
    ensures ModulesIn(bs + [b]) == ModulesIn(bs) + ModuleOfBlock(b)
    decreases |bs|
  {
    var t := bs + [b];
    if |bs| == 0 {
      assert t == [b];
      assert t[1..] == [];
      assert ModulesIn(t) == ModuleOfBlock(b) + ModulesIn([]);
    } else {
      assert t[0] == bs[0];
      assert t[1..] == bs[1..] + [b];
      ModulesInSnoc(bs[1..], b);
      calc {
        ModulesIn(t);
        ModuleOfBlock(bs[0]) + ModulesIn(bs[1..] + [b]);
        ModuleOfBlock(bs[0]) + (ModulesIn(bs[1..]) + ModuleOfBlock(b));
        (ModuleOfBlock(bs[0]) + ModulesIn(bs[1..])) + ModuleOfBlock(b);
      }
    }
  }

  /** The modules are those of the module blocks, in the order the blocks come, however
      many there are. */
  lemma {:induction false} ModulesInOrder(bs: seq<BlockView>)
    ensures StructureFold(bs).modules == ModulesIn(bs)
    decreases |bs|
  {
    if |bs| > 0 {
      var init := bs[..|bs| - 1];
      ModulesInOrder(init);
      ModulesInSnoc(init, bs[|bs| - 1]);
      assert init + [bs[|bs| - 1]] == bs;
    }
  }

  /** Blocks that match no rule leave the structure as it was. */
  lemma {:induction false} OtherBlocksFold(bs: seq<BlockView>)
    requires forall j :: 0 <= j < |bs| ==> bs[j].kind == OtherBlock
    ensures StructureFold(bs) == EmptyStructure
    decreases |bs|
  {
    if |bs| > 0 {
      OtherBlocksFold(bs[..|bs| - 1]);
    }
  }

  /** A text with no header and no "MODULE " anywhere parses to the defaults. */
  lemma NoMarkersGivesDefaults(result: string)
    requires !Contains(result, TitleHeader) && !Contains(result, DescriptionHeader)
    requires !Contains(result, RationaleHeader) && !Contains(result, ModulePrefix)
    ensures ParseStructure(result) == EmptyStructure
  {
    var sections := Split(result, "\n\n");
    var bs := Views(sections);
    forall j | 0 <= j < |bs| ensures bs[j].kind == OtherBlock {
      var block := Strip(sections[j]);
      PieceContains(result, "\n\n", j, TitleHeader);
      PieceContains(result, "\n\n", j, DescriptionHeader);
      PieceContains(result, "\n\n", j, RationaleHeader);
      PieceContains(result, "\n\n", j, ModulePrefix);
      StripContains(sections[j], TitleHeader);
      StripContains(sections[j], DescriptionHeader);
      StripContains(sections[j], RationaleHeader);
      StripContains(sections[j], ModulePrefix);
      if StartsWith(block, ModulePrefix) {
        StartsContains(block, ModulePrefix);
      }
    }
    OtherBlocksFold(bs);
  }

  /** The title of a bullet line is the stripped text after its first colon, or without
      a colon the stripped text after the "- ". */
  lemma LessonTitleSpec(t: string)
    requires StartsWith(t, BulletPrefix)
    ensures LessonTitle(t) == if Contains(t, ":") then Strip(After(t, ":")) else Strip(t[2..])
  {
    SplitOnceParts(t, ":");
    assert "" + t[2..] == t[2..];
  }

  /** A line becomes a lesson exactly when, stripped, it starts with "- " (the "- Lesson "
      test adds nothing); its content is empty and its title is the stripped text after
      the first colon, or without a colon the stripped text after the "- ". */
  lemma LessonLine(line: string)
    ensures var t := Strip(line);
      LessonOf(line).Some? <==> StartsWith(t, BulletPrefix)
    ensures var t := Strip(line);
      LessonOf(line).Some? ==>
        LessonOf(line).value.content == "" &&
        LessonOf(line).value.title == if Contains(t, ":") then Strip(After(t, ":")) else Strip(t[2..])
  {
    var t := Strip(line);
    if StartsWith(t, LessonPrefix) {
      assert t[..2] == t[..9][..2];
    }
    if StartsWith(t, BulletPrefix) {
      LessonTitleSpec(t);
    }
  }

  /** When `read` accepts every line, each line gives one item, in order. */
  lemma {:induction false} CollectAll<T>(read: string -> Option<T>, lines: seq<string>)
    requires forall j :: 0 <= j < |lines| ==> read(lines[j]).Some?
    ensures |Collect(read, lines)| == |lines|
    ensures forall i :: 0 <= i < |lines| ==> Collect(read, lines)[i] == read(lines[i]).value
    decreases |lines|
  {
    if |lines| > 0 {
      var init := lines[..|lines| - 1];
      CollectAll(read, init);
      assert Collect(read, lines) == Collect(read, init) + [read(lines[|lines| - 1]).value];
    }
  }

  /** When `read` rejects every line, there are no items. */
  lemma {:induction false} CollectNone<T>(read: string -> Option<T>, lines: seq<string>)
    requires forall j :: 0 <= j < |lines| ==> read(lines[j]).None?
    ensures Collect(read, lines) == []
    decreases |lines|
  {
    if |lines| > 0 {
      CollectNone(read, lines[..|lines| - 1]);
    }
  }

  /** When every line after a module's first is a bullet line, each gives one lesson, in
      order. */
  lemma LessonsOfBullets(block: string)
    requires forall j :: 0 <= j < |LessonLines(block)| ==> LessonOf(LessonLines(block)[j]).Some?
    ensures |ModuleOf(block).lessons| == |LessonLines(block)|
    ensures forall i :: 0 <= i < |LessonLines(block)| ==>
      ModuleOf(block).lessons[i] == LessonOf(LessonLines(block)[i]).value
  {
    CollectAll(LessonOf, LessonLines(block));
  }

  /** When no line after a module's first is a bullet line, the module has no lessons. */
  lemma LessonsWithoutBullets(block: string)
    requires forall j :: 0 <= j < |LessonLines(block)| ==> LessonOf(LessonLines(block)[j]).None?
    ensures ModuleOf(block).lessons == []
  {
    CollectNone(LessonOf, LessonLines(block));
  }

  /** A module's title is its block's first line, stripped. */
  lemma ModuleTitleIsFirstLine(block: string)
    ensures ModuleOf(block).title == Strip(Before(block, "\n"))
  {
    SplitFirst(block, "\n");
  }

  /** The title keeps the "MODULE" prefix of its block: a module block's title starts with
      "MODULE" (its space survives only when the first line goes on after it). */
  lemma ModuleTitleKeepsPrefix(block: string)
    requires StartsWith(block, ModulePrefix)
    ensures StartsWith(ModuleOf(block).title, "MODULE")
  {
    ModuleTitleIsFirstLine(block);
    BeforeKeepsPrefix(block, ModulePrefix, "\n");
    var first := Before(block, "\n");
    assert first[..6] == first[..7][..6];
    NotSpace('M');
    NotSpace('E');
    StripKeepsPrefix(first, "MODULE");
  }

  /** A block that, stripped, starts with "- " and carries no header matches no rule and is
      dropped: lessons cut off from their "MODULE" line by a blank line are lost. */
  lemma StrayLessonsDropped(block: string)
    requires StartsWith(block, BulletPrefix)
    requires !Contains(block, TitleHeader) && !Contains(block, DescriptionHeader)
    requires !Contains(block, RationaleHeader)
    ensures Kind(block) == OtherBlock
  {
    assert block[0] == '-';
  }

  /** A section is classified by its stripped text. */
  lemma ViewKind(section: string)
    ensures View(section).kind == Kind(Strip(section))
  {
  }
}
