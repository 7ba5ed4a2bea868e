/** The research stage's collaborator call and the parser that turns its free text into
    research data (app/agents/research_agent.py). */
module ResearchAgent {
  import opened Wrappers
  import opened Strings

  const SummaryHeader: string := "RESEARCH SUMMARY:"
  const KeyConceptsHeader: string := "KEY CONCEPTS:"
  const ResourcesHeader: string := "RESOURCES:"
  const InsightsHeader: string := "INSIGHTS:"

  /** The four fields the parser always fills. */
  datatype ResearchData = ResearchData(
    summary: string,
    keyConcepts: seq<string>,
    resources: seq<string>,
    insights: string)

  /** What `research_topic` returns: the parsed fields, or the one-key `{"error": ...}`
      dictionary it builds when the collaborator raised. Both are non-empty dictionaries. */
  datatype ResearchRecord = Parsed(data: ResearchData) | ResearchFailed(error: string)

  /** The variables the research prompt is filled with. */
  datatype ResearchPrompt = ResearchPrompt(topic: string, audience: string, duration: string)

  /** The section a block opens, or the one it is appended to. */
  datatype Section = NoSection | SummarySection | KeyConceptsSection | ResourcesSection | InsightsSection

  /** The parser's loop state: the open section and the fields so far. */
  datatype ParseState = ParseState(section: Section, data: ResearchData)

  const EmptyResearch: ResearchData := ResearchData("", [], [], "")

  /** Which header a block carries, by substring test, the first match winning
      (`ClassifyPriority`). */
  function Classify(block: string): Section {
    if Contains(block, SummaryHeader) then SummarySection
    else if Contains(block, KeyConceptsHeader) then KeyConceptsSection
    else if Contains(block, ResourcesHeader) then ResourcesSection
    else if Contains(block, InsightsHeader) then InsightsSection
    else NoSection
  }

  /** A block opens a section exactly when it contains that section's header and none of
      the headers tested before it; it opens none when it contains no header at all. */
  lemma ClassifyPriority(block: string)
    ensures Classify(block) == SummarySection <==> Contains(block, SummaryHeader)
    ensures Classify(block) == KeyConceptsSection <==>
      !Contains(block, SummaryHeader) && Contains(block, KeyConceptsHeader)
    ensures Classify(block) == ResourcesSection <==>
      !Contains(block, SummaryHeader) && !Contains(block, KeyConceptsHeader) &&
      Contains(block, ResourcesHeader)
    ensures Classify(block) == InsightsSection <==>
      !Contains(block, SummaryHeader) && !Contains(block, KeyConceptsHeader) &&
      !Contains(block, ResourcesHeader) && Contains(block, InsightsHeader)
    ensures Classify(block) == NoSection <==>
      !Contains(block, SummaryHeader) && !Contains(block, KeyConceptsHeader) &&
      !Contains(block, ResourcesHeader) && !Contains(block, InsightsHeader)
  {
  }

  /** `section.replace(header, "").strip()` */
  function HeaderBody(block: string, header: string): string
    requires header != ""
  {
    Strip(Replace(block, header, ""))
  }

  /** What one block offers the parser: the header it carries; for a header block, its
      text with the header removed and stripped, and for a list header that text's trimmed
      lines; for a headerless block, the raw block and its trimmed lines, which are what it
      adds to an open section. */
  datatype BlockView = BlockView(
    header: Section,
    body: string,
    bodyLines: seq<string>,
    raw: string,
    rawLines: seq<string>)

  function View(block: string): BlockView {
    match Classify(block)
    case NoSection => BlockView(NoSection, "", [], block, TrimmedLines(block))
    case SummarySection => BlockView(SummarySection, HeaderBody(block, SummaryHeader), [], block, [])
    case KeyConceptsSection =>
      var body := HeaderBody(block, KeyConceptsHeader);
      BlockView(KeyConceptsSection, body, TrimmedLines(body), block, [])
    case ResourcesSection =>
      var body := HeaderBody(block, ResourcesHeader);
      BlockView(ResourcesSection, body, TrimmedLines(body), block, [])
    case InsightsSection => BlockView(InsightsSection, HeaderBody(block, InsightsHeader), [], block, [])
  }

  function Views(blocks: seq<string>): (r: seq<BlockView>)
    ensures |r| == |blocks|
    ensures forall i :: 0 <= i < |blocks| ==> r[i] == View(blocks[i])
  {
    seq(|blocks|, i requires 0 <= i < |blocks| => View(blocks[i]))
  }

  /** One iteration of the parser's loop. */
  function ResearchStep(st: ParseState, b: BlockView): (r: ParseState)
    ensures r.section == if b.header != NoSection then b.header else st.section
  {
    var d := st.data;
    match b.header
    case SummarySection => ParseState(SummarySection, d.(summary := b.body))
    case KeyConceptsSection => ParseState(KeyConceptsSection, d.(keyConcepts := b.bodyLines))
    case ResourcesSection => ParseState(ResourcesSection, d.(resources := b.bodyLines))
    case InsightsSection => ParseState(InsightsSection, d.(insights := b.body))
    case NoSection =>
      match st.section
      case NoSection => st
      case SummarySection => st.(data := d.(summary := d.summary + "\n" + b.raw))
      case KeyConceptsSection => st.(data := d.(keyConcepts := d.keyConcepts + b.rawLines))
      case ResourcesSection => st.(data := d.(resources := d.resources + b.rawLines))
      case InsightsSection => st.(data := d.(insights := d.insights + "\n" + b.raw))
  }

  /** The parser's state after the given blocks. */
  function ResearchFold(bs: seq<BlockView>): ParseState
    decreases |bs|
  {
    if |bs| == 0 then ParseState(NoSection, EmptyResearch)
    else ResearchStep(ResearchFold(bs[..|bs| - 1]), bs[|bs| - 1])
  }

  /** `_parse_research_result`: the fields after all blank-line-separated blocks. */
  function ParseResearch(result: string): ResearchData {
    ResearchFold(Views(Split(result, "\n\n"))).data
  }

  /** One pass of `_parse_research_result`'s loop body over `section`. */
  method ParseBlock(section: string, st: ParseState) returns (next: ParseState)
    ensures next == ResearchStep(st, View(section))
  {
    ghost var view := View(section);
    var current := st.section;
    var summary, keyConcepts, resources, insights :=
      st.data.summary, st.data.keyConcepts, st.data.resources, st.data.insights;
    if Contains(section, SummaryHeader) {
      current := SummarySection;
      summary := Strip(Replace(section, SummaryHeader, ""));
      assert view == BlockView(SummarySection, summary, [], section, []);
    } else if Contains(section, KeyConceptsHeader) {
      current := KeyConceptsSection;
      var conceptsText := Strip(Replace(section, KeyConceptsHeader, ""));
      keyConcepts := TrimmedLines(conceptsText);
      assert view == BlockView(KeyConceptsSection, conceptsText, keyConcepts, section, []);
    } else if Contains(section, ResourcesHeader) {
      current := ResourcesSection;
      var resourcesText := Strip(Replace(section, ResourcesHeader, ""));
      resources := TrimmedLines(resourcesText);
      assert view == BlockView(ResourcesSection, resourcesText, resources, section, []);
    } else if Contains(section, InsightsHeader) {
      current := InsightsSection;
      insights := Strip(Replace(section, InsightsHeader, ""));
      assert view == BlockView(InsightsSection, insights, [], section, []);
    } else {
      assert view == BlockView(NoSection, "", [], section, TrimmedLines(section));
      if current != NoSection {
        if current == SummarySection {
          summary := summary + "\n" + section;
        } else if current == KeyConceptsSection {
          keyConcepts := keyConcepts + TrimmedLines(section);
        } else if current == ResourcesSection {
          resources := resources + TrimmedLines(section);
        } else if current == InsightsSection {
          insights := insights + "\n" + section;
        }
      }
    }
    next := ParseState(current, ResearchData(summary, keyConcepts, resources, insights));
  }

  /** `_parse_research_result`: the source's loop over the blank-line-separated blocks. */
  method ParseResearchResult(result: string) returns (d: ResearchData)
    ensures d == ParseResearch(result)
  {
    var sections := Split(result, "\n\n");
    ghost var views := Views(sections);
    var st := ParseState(NoSection, EmptyResearch);
    var i := 0;
    while i < |sections|
      invariant 0 <= i <= |sections|
      invariant ResearchFold(views[..i]) == st
    {
      FoldPrefixStep(views, i);
      st := ParseBlock(sections[i], st);
      i := i + 1;
    }
    assert views[..i] == views;
    d := st.data;
  }

  /** `research_topic`: a collaborator failure is not raised but returned as data. */
  function ResearchTopic(reply: Outcome): (r: ResearchRecord)
    ensures reply.Fail? ==> r == ResearchFailed("Research failed: " + reply.msg)
    ensures reply.Ok? ==> r == Parsed(ParseResearch(reply.text))
  {
    match reply
    case Ok(text) => Parsed(ParseResearch(text))
    case Fail(msg) => ResearchFailed("Research failed: " + msg)
  }

  /** `research_data.get("summary", "")` */
  function SummaryOf(rd: ResearchRecord): string {
    if rd.Parsed? then rd.data.summary else ""
  }

  /** `research_data.get("key_concepts", [])` */
  function KeyConceptsOf(rd: ResearchRecord): seq<string> {
    if rd.Parsed? then rd.data.keyConcepts else []
  }

  /** `research_data.get("insights", "")` */
  function InsightsOf(rd: ResearchRecord): string {
    if rd.Parsed? then rd.data.insights else ""
  }

  // ---------------------------------------------------------------------------
  // What the parser promises.

  /** One section's value, whatever its kind. */
  datatype FieldValue = Text(text: string) | Items(items: seq<string>)

  /** The value of section `sec` in `d`. */
  function Field(sec: Section, d: ResearchData): FieldValue {
    match sec
    case NoSection => Text("")
    case SummarySection => Text(d.summary)
    case KeyConceptsSection => Items(d.keyConcepts)
    case ResourcesSection => Items(d.resources)
    case InsightsSection => Text(d.insights)
  }

  /** The value a header block gives the section it opens. */
  function Opened(b: BlockView): FieldValue {
    match b.header
    case NoSection => Text("")
    case SummarySection => Text(b.body)
    case KeyConceptsSection => Items(b.bodyLines)
    case ResourcesSection => Items(b.bodyLines)
    case InsightsSection => Text(b.body)
  }

  /** A headerless block appended to an open section: text gets a newline and the raw
      block, a list gets the block's trimmed non-empty lines. */
  function Continued(v: FieldValue, b: BlockView): FieldValue {
    match v
    case Text(t) => Text(t + "\n" + b.raw)
    case Items(xs) => Items(xs + b.rawLines)
  }

  /** `Continued` over the blocks `bs[lo..hi]` in order. */
  function ContinueAll(v: FieldValue, bs: seq<BlockView>, lo: nat, hi: nat): FieldValue
    requires lo <= hi <= |bs|
    decreases hi
  {
    if hi == lo then v
    else Continued(ContinueAll(v, bs, lo, hi - 1), bs[hi - 1])
  }

  /** One iteration of the parser's loop, field by field: a header block replaces its
      field, a headerless block extends the open section, and nothing else changes. */
  lemma StepField(st: ParseState, b: BlockView, sec: Section)
    requires sec != NoSection
    ensures Field(sec, ResearchStep(st, b).data) ==
      if b.header == sec then Opened(b)
      else if b.header == NoSection && st.section == sec then Continued(Field(sec, st.data), b)
      else Field(sec, st.data)
  {
    if b.header == NoSection {
      match st.section
      case NoSection =>
      case SummarySection =>
      case KeyConceptsSection =>
      case ResourcesSection =>
      case InsightsSection =>
    } else {
      match sec
      case SummarySection =>
      case KeyConceptsSection =>
      case ResourcesSection =>
      case InsightsSection =>
    }
  }

  /** The state after `n + 1` blocks is one more step from the state after `n`. */
  lemma FoldPrefixStep(bs: seq<BlockView>, n: nat)
    requires n < |bs|
    ensures ResearchFold(bs[..n + 1]) == ResearchStep(ResearchFold(bs[..n]), bs[n])
  {
    assert bs[..n + 1][..n] == bs[..n];
  }

  /** From a block carrying `sec`'s header through the headerless blocks after it, `sec`
      stays open and each block is appended to the value the header block gave. */
  lemma {:induction false} RunExtends(bs: seq<BlockView>, sec: Section, k: nat, m: nat)
    requires sec != NoSection
    requires k < m <= |bs| && bs[k].header == sec
    requires forall j :: k < j < m ==> bs[j].header == NoSection
    ensures ResearchFold(bs[..m]).section == sec
    ensures Field(sec, ResearchFold(bs[..m]).data) == ContinueAll(Opened(bs[k]), bs, k + 1, m)
    decreases m
  {
    FoldPrefixStep(bs, m - 1);
    StepField(ResearchFold(bs[..m - 1]), bs[m - 1], sec);
    if m - 1 > k {
      RunExtends(bs, sec, k, m - 1);
    }
  }

  /** Once another header has closed `sec`, later blocks without `sec`'s header leave its
      field alone and never reopen it. */
  lemma {:induction false} RunClosed(bs: seq<BlockView>, sec: Section, m: nat, n: nat)
    requires sec != NoSection
    requires m < n <= |bs| && bs[m].header != NoSection
    requires forall j :: m <= j < n ==> bs[j].header != sec
    ensures ResearchFold(bs[..n]).section != sec
    ensures Field(sec, ResearchFold(bs[..n]).data) == Field(sec, ResearchFold(bs[..m]).data)
    decreases n
  {
    FoldPrefixStep(bs, n - 1);
    StepField(ResearchFold(bs[..n - 1]), bs[n - 1], sec);
    if n - 1 > m {
      RunClosed(bs, sec, m, n - 1);
    }
  }

  /** A field is decided by the last block carrying its header (index `k`) and the
      headerless blocks right after it (up to `m`): the header block sets the field and
      each following headerless block is appended, until another header closes the run.
      So a repeated header discards what the earlier one gave. */
  lemma FieldIsLastHeaderRun(bs: seq<BlockView>, sec: Section, k: nat, m: nat)
    requires sec != NoSection
    requires k < m <= |bs| && bs[k].header == sec
    requires forall j :: k < j < m ==> bs[j].header == NoSection
    requires m < |bs| ==> bs[m].header != NoSection
    requires forall j :: k < j < |bs| ==> bs[j].header != sec
    ensures Field(sec, ResearchFold(bs).data) == ContinueAll(Opened(bs[k]), bs, k + 1, m)
    ensures ResearchFold(bs).section == sec <==> m == |bs|
  {
    RunExtends(bs, sec, k, m);
    if m < |bs| {
      RunClosed(bs, sec, m, |bs|);
    }
    assert bs[..|bs|] == bs;
  }

  /** A section whose header never occurs keeps its default, and is never open. */
  lemma {:induction false} FieldWithoutHeader(bs: seq<BlockView>, sec: Section)
    requires sec != NoSection
    requires forall j :: 0 <= j < |bs| ==> bs[j].header != sec
    ensures Field(sec, ResearchFold(bs).data) == Field(sec, EmptyResearch)
    ensures ResearchFold(bs).section != sec
    decreases |bs|
  {
    if |bs| > 0 {
      FieldWithoutHeader(bs[..|bs| - 1], sec);
      StepField(ResearchFold(bs[..|bs| - 1]), bs[|bs| - 1], sec);
    }
  }

  /** Without any header the parser stays in its initial state. */
  lemma {:induction false} HeaderlessFold(bs: seq<BlockView>)
    requires forall j :: 0 <= j < |bs| ==> bs[j].header == NoSection
    ensures ResearchFold(bs) == ParseState(NoSection, EmptyResearch)
    decreases |bs|
  {
    if |bs| > 0 {
      HeaderlessFold(bs[..|bs| - 1]);
    }
  }

  /** Blocks before the first header are dropped. */
  lemma {:induction false} LeadingBlocksDropped(a: seq<BlockView>, b: seq<BlockView>)
    requires forall j :: 0 <= j < |a| ==> a[j].header == NoSection
    ensures ResearchFold(a + b) == ResearchFold(b)
    decreases |b|
  {
    if |b| == 0 {
      assert a + b == a;
      HeaderlessFold(a);
    } else {
      assert (a + b)[..|a + b| - 1] == a + b[..|b| - 1];
      LeadingBlocksDropped(a, b[..|b| - 1]);
    }
  }

  /** A text containing none of the four headers parses to the defaults, without raising. */
  lemma NoHeadersGivesDefaults(result: string)
    requires !Contains(result, SummaryHeader) && !Contains(result, KeyConceptsHeader)
    requires !Contains(result, ResourcesHeader) && !Contains(result, InsightsHeader)
    ensures ParseResearch(result) == EmptyResearch
  {
    var blocks := Split(result, "\n\n");
    var bs := Views(blocks);
    forall j | 0 <= j < |bs| ensures bs[j].header == NoSection {
      PieceContains(result, "\n\n", j, SummaryHeader);
      PieceContains(result, "\n\n", j, KeyConceptsHeader);
      PieceContains(result, "\n\n", j, ResourcesHeader);
      PieceContains(result, "\n\n", j, InsightsHeader);
    }
    HeaderlessFold(bs);
  }

  /** A block carrying a list header gives that list exactly the trimmed, non-empty lines
      of the block once the header is removed; a headerless block adds its own. */
  lemma ListValues(block: string)
    ensures Classify(block) == KeyConceptsSection ==>
      Opened(View(block)) == Items(TrimmedLines(HeaderBody(block, KeyConceptsHeader)))
    ensures Classify(block) == ResourcesSection ==>
      Opened(View(block)) == Items(TrimmedLines(HeaderBody(block, ResourcesHeader)))
    ensures Classify(block) == NoSection ==>
      forall xs :: Continued(Items(xs), View(block)) == Items(xs + TrimmedLines(block))
  {
  }

  /** Each item is a trimmed, non-empty line. */
  predicate CleanItems(xs: seq<string>) {
    forall i :: 0 <= i < |xs| ==> xs[i] != "" && Stripped(xs[i]) && '\n' !in xs[i]
  }

  lemma CleanAppend(a: seq<string>, b: seq<string>)
    requires CleanItems(a) && CleanItems(b)
    ensures CleanItems(a + b)
  {
    forall i | 0 <= i < |a + b| ensures (a + b)[i] != "" && Stripped((a + b)[i]) && '\n' !in (a + b)[i] {
      if i < |a| { assert (a + b)[i] == a[i]; } else { assert (a + b)[i] == b[i - |a|]; }
    }
  }

  /** Both line lists of a block's view are clean. */
  lemma ViewClean(block: string)
    ensures CleanItems(View(block).bodyLines) && CleanItems(View(block).rawLines)
  {
    TrimmedLinesClean(HeaderBody(block, KeyConceptsHeader));
    TrimmedLinesClean(HeaderBody(block, ResourcesHeader));
    TrimmedLinesClean(block);
  }

  /** A step from clean lists over a clean view keeps both lists clean. */
  lemma StepKeepsClean(st: ParseState, b: BlockView)
    requires CleanItems(st.data.keyConcepts) && CleanItems(st.data.resources)
    requires CleanItems(b.bodyLines) && CleanItems(b.rawLines)
    ensures CleanItems(ResearchStep(st, b).data.keyConcepts)
    ensures CleanItems(ResearchStep(st, b).data.resources)
  {
    CleanAppend(st.data.keyConcepts, b.rawLines);
    CleanAppend(st.data.resources, b.rawLines);
  }

  lemma {:induction false} FoldKeepsClean(bs: seq<BlockView>)
    requires forall j :: 0 <= j < |bs| ==> CleanItems(bs[j].bodyLines) && CleanItems(bs[j].rawLines)
    ensures CleanItems(ResearchFold(bs).data.keyConcepts)
    ensures CleanItems(ResearchFold(bs).data.resources)
    decreases |bs|
  {
    if |bs| > 0 {
      FoldKeepsClean(bs[..|bs| - 1]);
      StepKeepsClean(ResearchFold(bs[..|bs| - 1]), bs[|bs| - 1]);
    }
  }

  /** Every list item the parser produces is a trimmed, non-empty line. */
  lemma ItemsAreTrimmedLines(result: string)
    ensures CleanItems(ParseResearch(result).keyConcepts)
    ensures CleanItems(ParseResearch(result).resources)
  {
    var bs := Views(Split(result, "\n\n"));
    forall j | 0 <= j < |bs| ensures CleanItems(bs[j].bodyLines) && CleanItems(bs[j].rawLines) {
      ViewClean(Split(result, "\n\n")[j]);
    }
    FoldKeepsClean(bs);
  }
}
