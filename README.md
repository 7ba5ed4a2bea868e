# Course generation pipeline — a Dafny model

This project models the core of a course generator. A brief, with an optional target
audience and duration, goes through four stages, and a structured course comes out:

1. **Research** asks a text generator about the topic. It parses the free-text reply into a
   summary, key concepts, resources and insights. A failing call is not raised: it becomes
   the record `{"error": "Research failed: ..."}`.
2. **Structure** asks for a course outline. The prompt carries the research summary and
   the key concepts as a bullet list. The reply is parsed into a title, a description, a
   rationale and the modules with their lesson titles.
3. **Content** fans out over every module and every lesson. It asks for each lesson's text
   and resources. A failure in one lesson is caught and stored as that lesson's text.
   Entries are filed by module title.
4. **Finalize** assembles the final course: the structure's modules in order, each with the
   lessons filed under its title, and the research resources as references.

Each stage records a fixed error message in the state when its input is missing. The
graph's edges are unconditional, so every stage runs. `generate_course` raises on a
recorded error or a missing final course. Otherwise it copies the final course into the
response value. A separate quality reviewer turns a module's lessons into one text, asks
for a review, and files the reply's sections on the module. It is not wired into the
graph.

Every collaborator call (the text generator) is a parameter of type
`Prompt -> Outcome`: `Ok(text)` for a reply, `Fail(msg)` for a raised exception. Each
prompt is a datatype holding the variables the prompt template is filled with. The lesson
call also receives the module and lesson indices, and the review call the module index.
This gives every call in a run its own answer.

Modules:

- `Wrappers`:
  - `Option`, `Result` and `Outcome`;
  - `OrEmpty` for `value or ""`.
- `Strings`: the Python string operations the parsers use, each with its specification,
  and the lemmas about them:
  - `in` (`Contains`);
  - `split`, `join`, `replace` and `strip`;
  - the split-on-newline-and-keep-trimmed-lines idiom;
  - `_format_list`;
  - decimal rendering.
- `Course`: `Lesson`, `Module`, `CourseResponse`.
- `ResearchAgent`, `StructureAgent`, `ContentAgent`, `QualityAgent`: one module per
  agent. Each has its parser as a specification function, the source's loop as a method
  proved equal to that function, the collaborator call, and lemmas about what the parser
  produces.
- `Orchestrator`:
  - `AgentState`, the four stages, `should_end` and the run;
  - the content fan-out and finalize, as loops proved against their folds;
  - `generate_course`;
  - lemmas about whole runs.

The pipeline is sometimes described as ending at the first stage that records an error.
The code does not do that: `orchestrator.py:316-318` adds unconditional edges, and only
finalize has a conditional edge. The model follows the code. Lemma
`Orchestrator.StructureFailureMasked` shows the consequence: a failing structure call
reaches the caller as finalize's "Missing course structure" message, not as the
structure error.

## Model

| member | source | states |
|---|---|---|
| ResearchAgent.ClassifyPriority | app/agents/research_agent.py:136-151 | a block is read as a summary, key-concepts, resources or insights block exactly when it contains that header and none of the headers tested before it; with no header it is a continuation |
| ResearchAgent.ParseBlock | app/agents/research_agent.py:136-161 | one pass of the loop body equals one step of the parser's fold: a header block opens its section and overwrites its field, a headerless block extends the open section |
| ResearchAgent.ParseResearchResult | app/agents/research_agent.py:124-163 | the loop over the blank-line-separated blocks, starting from the empty defaults, computes `ParseResearch` |
| ResearchAgent.ResearchTopic | app/agents/research_agent.py:83-111 | a failing call gives the record whose error is "Research failed: " followed by the message; a reply gives the parsed fields |
| ResearchAgent.StepField | app/agents/research_agent.py:136-161 | field by field, a header block replaces its section's value, a continuation appends to the open section only, and other fields stay |
| ResearchAgent.RunExtends | app/agents/research_agent.py:150-161 | after a header block and the headerless blocks following it, the section is still open and its value is the header's body continued by each of those blocks |
| ResearchAgent.RunClosed | app/agents/research_agent.py:133-161 | once another header closes a section, blocks without its header leave its value unchanged |
| ResearchAgent.FieldIsLastHeaderRun | app/agents/research_agent.py:133-161 | a field is decided by the last block carrying its header and the headerless run after it; the section is still open at the end exactly when that run reaches the end |
| ResearchAgent.FieldWithoutHeader | app/agents/research_agent.py:124-161 | a section whose header never occurs keeps its default and is never open |
| ResearchAgent.HeaderlessFold | app/agents/research_agent.py:133-150 | without any header the parser stays in its initial state |
| ResearchAgent.LeadingBlocksDropped | app/agents/research_agent.py:133-150 | blocks before the first header are dropped: no section is open to receive them |
| ResearchAgent.NoHeadersGivesDefaults | app/agents/research_agent.py:124-163 | a reply containing none of the four headers parses to the defaults |
| ResearchAgent.ListValues | app/agents/research_agent.py:139-148 | a key-concepts or resources block sets its list to the trimmed non-empty lines after the header |
| ResearchAgent.ViewClean | app/agents/research_agent.py:141-161 | the lines a block offers to either list are trimmed, non-empty and without newlines |
| ResearchAgent.StepKeepsClean | app/agents/research_agent.py:139-161 | a step keeps both lists made of trimmed, non-empty lines |
| ResearchAgent.FoldKeepsClean | app/agents/research_agent.py:133-161 | the whole loop keeps both lists made of trimmed, non-empty lines |
| ResearchAgent.ItemsAreTrimmedLines | app/agents/research_agent.py:124-163 | every key concept and resource the parser returns is a trimmed, non-empty line |
| StructureAgent.KindPriority | app/agents/structure_agent.py:180-189 | a stripped block matches the title, description, rationale or module rule exactly when it passes that rule's test and fails every earlier one |
| StructureAgent.ParseLessonLine | app/agents/structure_agent.py:201-217 | one pass of the lesson loop gives a lesson exactly for a bullet line, titled by `LessonOf` |
| StructureAgent.ParseModule | app/agents/structure_agent.py:189-220 | the module branch gives the module whose title is the first line and whose lessons are the bullet lines after it |
| StructureAgent.ParseBlock | app/agents/structure_agent.py:177-220 | one pass of the loop body equals one step of the parser's fold |
| StructureAgent.ParseStructureResult | app/agents/structure_agent.py:161-224 | the loop over the blank-line-separated blocks, starting from the defaults, computes `ParseStructure` |
| StructureAgent.CreateStructure | app/agents/structure_agent.py:113-146 | the prompt carries the research summary and the key concepts joined as a bullet list, both empty for a failed research record; a failing call propagates its message and a reply is parsed |
| StructureAgent.StepField | app/agents/structure_agent.py:180-188 | a block of a header's rule overwrites that field with its text after the header, and any other block leaves the field alone |
| StructureAgent.LastHeaderWins | app/agents/structure_agent.py:176-188 | a header field holds the text of the last block of its rule |
| StructureAgent.HeaderDefault | app/agents/structure_agent.py:161-188 | a header field that no block writes keeps its default "" |
| StructureAgent.ModulesInOrder | app/agents/structure_agent.py:189-220 | the modules are those of the module blocks, in block order, however other blocks are interleaved |
| StructureAgent.OtherBlocksFold | app/agents/structure_agent.py:161-189 | blocks that match no rule leave the structure at its defaults |
| StructureAgent.NoMarkersGivesDefaults | app/agents/structure_agent.py:161-224 | a reply with no header and no "MODULE " anywhere parses to the defaults |
| StructureAgent.LessonTitleSpec | app/agents/structure_agent.py:205-210 | a bullet line's title is the stripped text after its first colon, or, without a colon, the stripped text after the bullet |
| StructureAgent.LessonLine | app/agents/structure_agent.py:201-204 | a line gives a lesson exactly when, stripped, it starts with "- " |
| StructureAgent.CollectAll | app/agents/structure_agent.py:201-217 | when every line is accepted, each line gives one item, in order |
| StructureAgent.CollectNone | app/agents/structure_agent.py:201-217 | when no line is accepted, there are no items |
| StructureAgent.LessonsOfBullets | app/agents/structure_agent.py:192-220 | when every line after a module's first is a bullet line, the module has one lesson per line, in order |
| StructureAgent.LessonsWithoutBullets | app/agents/structure_agent.py:192-220 | when no line after a module's first is a bullet line, the module has no lessons |
| StructureAgent.ModuleTitleIsFirstLine | app/agents/structure_agent.py:192-193 | a module's title is its block's first line, stripped |
| StructureAgent.ModuleTitleKeepsPrefix | app/agents/structure_agent.py:189-193 | a module title keeps its "MODULE" prefix |
| StructureAgent.StrayLessonsDropped | app/agents/structure_agent.py:180-189 | a bullet block carrying no header matches no rule, so lessons outside a module block are dropped |
| StructureAgent.ViewKind | app/agents/structure_agent.py:176-180 | a section is classified by its stripped text |
| ContentAgent.ParseBothMarkers | app/agents/content_agent.py:146-158 | with both markers, the text is what precedes the first "RESOURCES:" with every "CONTENT:" removed, stripped; the resources are the trimmed non-empty lines up to the second "RESOURCES:" or the end |
| ContentAgent.ParseFallback | app/agents/content_agent.py:159-161 | without one of the markers, the reply is kept verbatim as the text and there are no resources |
| ContentAgent.ParseContentClean | app/agents/content_agent.py:146-158 | with both markers, the text is stripped and every resource is a trimmed non-empty line |
| ContentAgent.InfoOf | app/agents/content_agent.py:96-105 | the research information is the summary, the key concepts as a bullet list and the insights, all empty for a failed research record |
| ContentAgent.GenerateLessonContent | app/agents/content_agent.py:70-123 | without a research record the `.get` on `None` raises; a failing call propagates its message; a reply is parsed |
| ContentAgent.WorkedExample | app/agents/content_agent.py:140-163 | the reply "CONTENT:\nHello\n\nRESOURCES:\nA\nB" parses to the text "Hello" and the resources ["A", "B"] |
| Strings.FormatListLines | app/agents/content_agent.py:125-127 | for a non-empty list whose items hold no newline, the bullet list splits on newlines back into one line per item, "- " followed by that item |
| Strings.FormatListEmpty | app/agents/quality_agent.py:127-129 | the bullet list of no items is "" |
| QualityAgent.SegmentSpec | app/agents/quality_agent.py:160-166 | where the start header occurs, the segment is the stripped text after its first occurrence, up to the next occurrence or the stop header, whichever comes first |
| QualityAgent.ReviewWithoutRevised | app/agents/quality_agent.py:143-178 | without "REVISED CONTENT:" the module comes back unchanged |
| QualityAgent.ReviewWithRevised | app/agents/quality_agent.py:146-176 | with "REVISED CONTENT:" the module keeps its title and lessons and gains a review: the module review and improvements sections, empty when a header is missing, and the stripped text between the first two "REVISED CONTENT:" |
| QualityAgent.SectionClean | app/agents/quality_agent.py:160-166 | a review section is stripped and holds neither its own header nor the header it stops at |
| QualityAgent.FormatLessons | app/agents/quality_agent.py:96-108 | the loop that appends with `+=` builds `LessonsText`, one block per lesson in declared order |
| QualityAgent.BlocksPrefix | app/agents/quality_agent.py:96-108 | the text of the first k lessons is a prefix of the text of all of them |
| QualityAgent.BlockAt | app/agents/quality_agent.py:96-108 | lesson i's block comes right after the blocks of the lessons before it |
| QualityAgent.BlockNumber | app/agents/quality_agent.py:98-99 | lesson i's block, read between "Lesson " and the first ": ", gives back the number i + 1 |
| QualityAgent.ReviewKeepsModule | app/agents/quality_agent.py:74-125 | a review fails exactly when the call fails, with the call's message; a successful review keeps the module's title and lessons |
| QualityAgent.ReviewModule | app/agents/quality_agent.py:74-125 | the method with its text-building loop computes `ModuleReview` |
| QualityAgent.ReviewCourse | app/agents/quality_agent.py:192-226 | the course review succeeds exactly when every module's call replies; it then returns the course unchanged, review notes dropped; otherwise it fails with the message of the first failing module |
| Orchestrator.ResearchStage | app/agents/orchestrator.py:39-69 | the research stage always records a research record and no error, keeps the inputs and sets no later field |
| Orchestrator.StructureStageSpec | app/agents/orchestrator.py:71-113 | without research data the stage stops with its message; a failing call stops it with "Structure creation error: " and the message, keeping the research; a reply sets the parsed structure |
| Orchestrator.GenerateLesson | app/agents/orchestrator.py:149-172 | one lesson's entry: the generated text and resources, or, on a failure, "Error generating content: " with the message and no resources; always titled as the lesson |
| Orchestrator.ModuleEntries | app/agents/orchestrator.py:143-172 | a module has one entry per lesson |
| Orchestrator.GenerateModule | app/agents/orchestrator.py:143-172 | a module resets its title's list and fills it with its lessons' entries; nothing else in `content_data` changes |
| Orchestrator.GenerateCourseContent | app/agents/orchestrator.py:115-194 | the nested loops over modules and lessons compute `ContentStage` |
| Orchestrator.ContentKeys | app/agents/orchestrator.py:143 | the keys of `content_data` are exactly the titles of the modules processed |
| Orchestrator.LastModuleWins | app/agents/orchestrator.py:143-172 | a title's list holds the entries of the last module with that title; an earlier module with the same title is overwritten |
| Orchestrator.EntrySpec | app/agents/orchestrator.py:149-172 | each module's list has one entry per lesson, in declared order, titled as the lesson |
| Orchestrator.FailureIsolated | app/agents/orchestrator.py:149-172 | when one lesson's call fails, that lesson's entry carries the error text and no resources, and every other lesson's entry is unchanged |
| Orchestrator.NoModulesNoContent | app/agents/orchestrator.py:137-184 | a structure with no modules gives an empty `content_data` |
| Orchestrator.ContentPrerequisite | app/agents/orchestrator.py:121-129 | without a structure the content stage stops with its message, keeps the research and adds no content |
| Orchestrator.FinalModules | app/agents/orchestrator.py:229-252 | one final module per structure module |
| Orchestrator.CopyLessons | app/agents/orchestrator.py:235-245 | the copy loop reproduces a module's entries field by field |
| Orchestrator.FinalizeCourse | app/agents/orchestrator.py:196-289 | the method with its loops over modules and lessons computes `FinalizeStage` |
| Orchestrator.FinalizeSpec | app/agents/orchestrator.py:223-265 | the final course has the structure's title and description, one module per structure module with the same title in the same order, each with the entries filed under its title or none, and the research resources as references when the record has them |
| Orchestrator.FinalizePrerequisites | app/agents/orchestrator.py:202-221 | finalize stops without a structure, and with a missing or empty `content_data`, keeping what it had |
| Orchestrator.FinalizeEnds | app/agents/orchestrator.py:291-302 | finalize always sets an error or the final course, so `should_end` says "end" and the self-loop never fires |
| Orchestrator.ConvertCourse | app/agents/orchestrator.py:387-415 | the conversion loops rebuild the final course unchanged |
| Orchestrator.GenerateCourse | app/agents/orchestrator.py:335-423 | `generate_course` is `Respond` of the run of the four stages in order |
| Orchestrator.ResearchFailureSwallowed | app/agents/orchestrator.py:39-113 | a failing research call does not stop the run: the error record is stored with no stage error, and the structure prompt gets an empty summary and no key concepts |
| Orchestrator.SuccessIff | app/agents/orchestrator.py:316-381 | the run succeeds exactly when the structure call replies and its reply gives at least one module |
| Orchestrator.StructureFailureMasked | app/agents/orchestrator.py:316-381 | a failing structure call surfaces as "Course generation failed: " with finalize's missing-structure message |
| Orchestrator.NoModulesFails | app/agents/orchestrator.py:202-221 | a structure without modules surfaces as finalize's missing-content message |
| Orchestrator.NeverNoFinal | app/agents/orchestrator.py:378-381 | the missing-final-course error is never raised |
| Orchestrator.SuccessShape | app/agents/orchestrator.py:335-419 | on success the response is the course finalize compiled from the structure, the filed entries and the research resources |

## Left out

- The text generator, the web search and the HTTP API are not modelled. Their answers are the oracle parameters, and the prompt templates' wording is left out. Each prompt is a record of the variables it is filled with. The research information block is given as its three fields, not as its f-string text.
- Logging, `asyncio` and LangGraph's machinery are not modelled. A stage's returned state is taken as the new state, which is what the graph does here because every stage returns an entire `AgentState`.
- Orchestrator.ResearchStage: the outer `except` of `research_course_topic` is not modelled. `research_topic` never raises, so that branch cannot be reached. The same holds for the outer `except` of finalize and of the content stage: the model's operations cannot raise, and only the per-lesson `try` is reachable.
- Orchestrator.GenerateCourse: a failed run is a `Failure` value, not a raised exception. The `except` that logs and re-raises is not modelled.
- Mutating the caller's dictionaries is not modelled. Every value is immutable in the model, so `dict(original_module)` copying before the update comes for free.
- ContentAgent.GenerateLessonContent: the message of the `AttributeError` raised on a missing research record is written as CPython's text for it.
- `base_agent.py`, `web_research.py`, `course_router.py` and `main.py` are not part of this model. The note on the collaborator call above covers the first two.
