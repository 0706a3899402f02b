# Blog tagging agents and the book table, modelled in Dafny

This project models three small Python programs from a distributed-systems
course repository.

- **The LangGraph agent**, in `Assignment2-Langhgraph_Agents/Part3/agent_demo.py`.
  A supervisor, a planner and a reviewer share one state dictionary. The
  supervisor counts turns. A router sends the state to the planner, to the
  reviewer or to the end. The planner asks a language model for three tags
  and a summary of at most 25 words, recovers a JSON object from the reply
  with a three-strategy extractor, and normalises it. The reviewer checks
  four rules and, with `force_issue` hard-wired on, always adds one more
  issue, so no review approves. A run therefore ends in one of two ways. It
  either takes the nine steps supervisor, planner, supervisor, reviewer,
  supervisor, planner, supervisor, planner, supervisor and stops at the
  turn limit of 5, or the first review raises `AttributeError` after
  supervisor, planner, supervisor, because a tag is a truthy value that is
  not a string and the blank-tag rule calls `.strip()` on it.
- **The three-agent workflow**, in `Assignment1-AgenticAI/Part2/agents_demo.py`.
  A planner, a reviewer and a finaliser each send a system prompt and a user
  message to a chat endpoint and recover a JSON object from the reply. The
  file also defines tag cleaning (`clean_tags`) and a three-tag finaliser
  (`finalize_output`).
- **The in-memory book table**, in `Assignment2-Langhgraph_Agents/Part1_and_2/main.py`.
  It is a list of records with integer ids and a counter that hands out the
  next id. The handlers search, add, look up, update, delete by id and
  delete the record with the highest id.

Modules:

- `Values` holds options, raised exceptions and JSON values.
- `Seqs` holds the filtered list comprehension and truncate-or-pad.
- `Text` holds the Python string methods the programs use.
- `GraphExtract` is the LangGraph agent's extractor.
- `AgentGraph` holds the LangGraph agent's state, nodes, router and run.
- `AgentsDemo` is the three-agent workflow.
- `BookLibrary` is the book table, as a class `Library`. Its methods update
  the fields `books` and `nextId`.

Imperative code stays imperative. The fenced-block loop of the extractor,
the planner's padding loop, the reviewer's list of appended issues, the stream
loop that merges each node's update, `clean_tags`, `finalize_output` and
every book handler are methods with loops or state updates. Each is proved
equal to a specification function. The properties are proved about that
function.

The language model is a parameter. In the LangGraph agent it is a function
`string -> string`. In the three-agent workflow it is a function from
(system prompt, user message) to reply text. `json.loads` is also a
parameter: a parser from text to an optional decoded object. So is
`json.dumps`. Every theorem holds for all models and all parsers.

## Model

| member | source | states |
|---|---|---|
| Values.Get | Assignment1-AgenticAI/Part2/agents_demo.py:104-105 | `dict.get` returns the stored value for a present key and None for an absent one |
| Values.StrItems | Assignment1-AgenticAI/Part2/agents_demo.py:113 | a list of strings becomes a JSON array with the same length and the same strings at every position |
| Seqs.Keep | Assignment2-Langhgraph_Agents/Part1_and_2/main.py:45-48 | a filtering list comprehension keeps exactly the elements that satisfy the filter, with their multiplicities and in their original order |
| Seqs.TruncatePad | Assignment1-AgenticAI/Part2/agents_demo.py:108-111 | cut to n, then pad with the filler: exactly n elements; the first min(n, len) are the input's, the rest are the filler |
| Text.Strip | Assignment2-Langhgraph_Agents/Part3/agent_demo.py:37 | `strip()` leaves no whitespace at either end and never lengthens the text |
| Text.TrimStartWhile | Assignment2-Langhgraph_Agents/Part3/agent_demo.py:37 | trimming a character class from the front never lengthens the text and leaves no member of the class first |
| Text.TrimEndWhile | Assignment2-Langhgraph_Agents/Part3/agent_demo.py:37 | trimming a character class from the back never lengthens the text and leaves no member of the class last |
| Text.StripWhile | Assignment2-Langhgraph_Agents/Part3/agent_demo.py:37 | trimming both ends never lengthens the text and leaves no member of the class at either end |
| Text.StripWhileRemovesOnly | Assignment2-Langhgraph_Agents/Part3/agent_demo.py:37 | trimming both ends leaves a contiguous slice of the text; everything cut off before and after it belongs to the class |
| Text.StripRemovesOnlySpace | Assignment2-Langhgraph_Agents/Part3/agent_demo.py:37 | `strip()` keeps a contiguous slice of the text and removes only whitespace, at the two ends |
| Text.TrimStartIsSuffix | Assignment2-Langhgraph_Agents/Part3/agent_demo.py:37 | removing leading whitespace leaves a suffix of the text, and every character removed is whitespace |
| Text.TrimEndIsPrefix | Assignment2-Langhgraph_Agents/Part3/agent_demo.py:37 | removing trailing whitespace leaves a prefix of the text, and every character removed is whitespace |
| Text.StripOfStripped | Assignment2-Langhgraph_Agents/Part3/agent_demo.py:46 | `strip()` does not change text that has no whitespace at its ends |
| Text.StripIdempotent | Assignment1-AgenticAI/Part2/agents_demo.py:86 | `strip()` twice is `strip()` once |
| Text.TrimStartAppend | Assignment2-Langhgraph_Agents/Part3/agent_demo.py:37 | in x + y, where y starts with a non-space, leading whitespace is removed from x only |
| Text.TrimEndPrepend | Assignment2-Langhgraph_Agents/Part3/agent_demo.py:37 | in x + y, where x ends with a non-space, trailing whitespace is removed from y only |
| Text.StripChar | Assignment2-Langhgraph_Agents/Part3/agent_demo.py:70 | `strip(c)` leaves no c at either end and never lengthens the text |
| Text.StripCharRemovesOnly | Assignment2-Langhgraph_Agents/Part3/agent_demo.py:70 | `strip(c)` keeps a contiguous slice of the text and removes only copies of c, at the two ends |
| Text.Lower | Assignment1-AgenticAI/Part2/agents_demo.py:89 | `lower()` keeps the length and lower-cases each character |
| Text.Find | Assignment2-Langhgraph_Agents/Part3/agent_demo.py:54 | `find` returns -1 exactly when the character is absent, and otherwise the index of its first occurrence |
| Text.RFind | Assignment2-Langhgraph_Agents/Part3/agent_demo.py:55 | `rfind` returns -1 exactly when the character is absent, and otherwise the index of its last occurrence |
| Text.FindIsFirst | Assignment2-Langhgraph_Agents/Part3/agent_demo.py:54 | an occurrence with none before it is what `find` returns |
| Text.RFindIsLast | Assignment2-Langhgraph_Agents/Part3/agent_demo.py:55 | an occurrence with none after it is what `rfind` returns |
| Text.NotContainsSub | Assignment2-Langhgraph_Agents/Part3/agent_demo.py:40 | a needle whose first character is absent from the text is not `in` the text |
| Text.ContainsSub | Assignment2-Langhgraph_Agents/Part3/agent_demo.py:40 | `sub in s` can only hold when sub is no longer than s |
| Text.ContainsSubAfter | Assignment2-Langhgraph_Agents/Part3/agent_demo.py:40 | a substring of s is a substring of x + s |
| Text.ContainsSubBefore | Assignment2-Langhgraph_Agents/Part3/agent_demo.py:40 | a substring of s is a substring of s + y |
| Text.ContainsWithin | Assignment2-Langhgraph_Agents/Part3/agent_demo.py:40 | a substring of the middle piece is a substring of x + m + y |
| Text.ContainsPiece | Assignment2-Langhgraph_Agents/Part3/agent_demo.py:40 | the middle piece of x + m + y is a substring of it |
| Text.ContainsPieces | Assignment2-Langhgraph_Agents/Part3/agent_demo.py:40 | both inner pieces of a five-part concatenation are substrings of it |
| Text.SplitOn | Assignment2-Langhgraph_Agents/Part3/agent_demo.py:42 | `split(sep)` always yields at least one piece |
| Text.SplitFromSkip | Assignment2-Langhgraph_Agents/Part3/agent_demo.py:42 | text that cannot start a separator goes into the current piece unchanged |
| Text.SplitFromSep | Assignment2-Langhgraph_Agents/Part3/agent_demo.py:42 | a separator at the front closes the current piece and starts an empty one |
| Text.AfterFirst | Assignment2-Langhgraph_Agents/Part3/agent_demo.py:45 | `split("\n", 1)[-1]` on text containing a newline is what follows the first newline |
| Text.TakeWord | Assignment2-Langhgraph_Agents/Part3/agent_demo.py:137 | the longest leading run of non-space characters |
| Text.TakeWordOf | Assignment2-Langhgraph_Agents/Part3/agent_demo.py:137 | a run of non-space characters followed by a space or the end is exactly the word taken |
| Text.Words | Assignment2-Langhgraph_Agents/Part3/agent_demo.py:137 | every piece `split()` yields is a non-empty run without whitespace |
| Text.WordsAfterSpace | Assignment2-Langhgraph_Agents/Part3/agent_demo.py:137 | leading whitespace does not change `split()` |
| Text.WordsOfWord | Assignment2-Langhgraph_Agents/Part3/agent_demo.py:137 | a single word splits into itself |
| Text.WordsCons | Assignment2-Langhgraph_Agents/Part3/agent_demo.py:137-139 | a word, a space and more text split into that word followed by the words of the rest |
| Text.WordsOfJoin | Assignment2-Langhgraph_Agents/Part3/agent_demo.py:137-139 | `" ".join(words).split()` gives the words back |
| Text.JoinContains | Assignment2-Langhgraph_Agents/Part3/agent_demo.py:224 | every element of a list is a substring of the list joined with any separator |
| Text.NatToString | Assignment2-Langhgraph_Agents/Part3/agent_demo.py:190 | `str(n)` of a count is a non-empty string of digits without a leading zero whose decimal value is n |
| Text.Digit | Assignment2-Langhgraph_Agents/Part3/agent_demo.py:190 | a digit value below 10 becomes the digit character with that value |
| GraphExtract.FenceCandidates | Assignment2-Langhgraph_Agents/Part3/agent_demo.py:43-46 | one candidate per piece after the first fence, in order: the piece without its first line (if it has several lines), stripped |
| GraphExtract.FenceCandidate | Assignment2-Langhgraph_Agents/Part3/agent_demo.py:45-46 | a piece's candidate is never longer than the piece, has no whitespace at its ends, and is the stripped piece when the piece has one line |
| GraphExtract.FirstAcceptedIsFirst | Assignment2-Langhgraph_Agents/Part3/agent_demo.py:43-51 | strategy 1 fails exactly when no candidate starts with `{` and parses; otherwise it yields the first candidate that does |
| GraphExtract.FencedStrategy | Assignment2-Langhgraph_Agents/Part3/agent_demo.py:40-51 | strategy 1 can only succeed when the text contains a fence; what it yields is the first accepted candidate, by `FirstAcceptedIsFirst` |
| GraphExtract.BraceStrategy | Assignment2-Langhgraph_Agents/Part3/agent_demo.py:54-57 | without a `{` followed somewhere by a `}`, strategy 2 never calls the parser |
| GraphExtract.BraceStrategySpan | Assignment2-Langhgraph_Agents/Part3/agent_demo.py:54-59 | otherwise the parser sees exactly the span from the first `{` to the last `}` |
| GraphExtract.BracketGroupAt | Assignment2-Langhgraph_Agents/Part3/agent_demo.py:64 | group 1 of `\[([^\]]+)\]` is non-empty and holds no `]` |
| GraphExtract.FirstBracketGroup | Assignment2-Langhgraph_Agents/Part3/agent_demo.py:64 | the leftmost bracket group is non-empty and holds no `]` |
| GraphExtract.SeparatorRun | Assignment2-Langhgraph_Agents/Part3/agent_demo.py:65 | the greedy `["\s:]+` run never exceeds the text |
| GraphExtract.ValueRun | Assignment2-Langhgraph_Agents/Part3/agent_demo.py:65 | the greedy `[^"}\]]+` run is a prefix made only of value characters |
| GraphExtract.ValueAfter | Assignment2-Langhgraph_Agents/Part3/agent_demo.py:65 | backtracking over the separator run finds a non-empty value without `"` |
| GraphExtract.SummaryGroupAt | Assignment2-Langhgraph_Agents/Part3/agent_demo.py:65 | a case-insensitive `summary` match gives a non-empty group without `"` |
| GraphExtract.FirstSummaryGroup | Assignment2-Langhgraph_Agents/Part3/agent_demo.py:65 | the leftmost summary group is non-empty and has no `"` |
| GraphExtract.CleanEntry | Assignment2-Langhgraph_Agents/Part3/agent_demo.py:70 | a cleaned entry is never longer than the raw one and has no single quote at either end |
| GraphExtract.FirstThreeNonEmpty | Assignment2-Langhgraph_Agents/Part3/agent_demo.py:71 | `[t for t in tags if t][:3]`: at most 3 entries, all non-empty, a prefix of the non-empty entries, of length min(3, their number) |
| GraphExtract.LooseTags | Assignment2-Langhgraph_Agents/Part3/agent_demo.py:69-71 | the cleaned comma-separated entries: at most 3, none empty |
| GraphExtract.LooseTagsIn | Assignment2-Langhgraph_Agents/Part3/agent_demo.py:67-71 | no bracket group gives no tags; otherwise at most 3 non-empty tags |
| GraphExtract.LooseSummaryIn | Assignment2-Langhgraph_Agents/Part3/agent_demo.py:73-75 | no summary group gives the empty summary |
| GraphExtract.LooseStrategy | Assignment2-Langhgraph_Agents/Part3/agent_demo.py:77-78 | a strategy-3 object has exactly the keys tags and summary |
| GraphExtract.LooseStrategyShape | Assignment2-Langhgraph_Agents/Part3/agent_demo.py:63-78 | strategy 3 succeeds exactly when both tags and summary are non-empty; its object has exactly the keys tags and summary, 1 to 3 non-empty string tags and a non-empty string summary |
| GraphExtract.Extract | Assignment2-Langhgraph_Agents/Part3/agent_demo.py:36-80 | the strategies are tried in order: a strategy-1 result wins, then a strategy-2 result, then a strategy-3 result; ValueError is raised exactly when all three fail, with the fixed prefix plus the stripped text as its message |
| GraphExtract.ScanFenced | Assignment2-Langhgraph_Agents/Part3/agent_demo.py:43-51 | the loop over the pieces after the first fence, returning at the first candidate that starts with `{` and parses, computes exactly strategy 1 |
| GraphExtract.ExtractJson | Assignment2-Langhgraph_Agents/Part3/agent_demo.py:36-80 | the loop over fenced pieces with early returns, then strategies 2 and 3, computes exactly `Extract` |
| GraphExtract.StripAround | Assignment2-Langhgraph_Agents/Part3/agent_demo.py:37 | stripping text around a core that has no whitespace at its ends removes only the outer whitespace |
| GraphExtract.TrimStartAround | Assignment2-Langhgraph_Agents/Part3/agent_demo.py:37 | the leading half of the same fact |
| GraphExtract.TrimEndAround | Assignment2-Langhgraph_Agents/Part3/agent_demo.py:37 | the trailing half of the same fact |
| GraphExtract.BraceStrategyAround | Assignment2-Langhgraph_Agents/Part3/agent_demo.py:54-59 | for an object in prose with no `{` before it and no `}` after it, the parser sees the object |
| GraphExtract.ExtractEmbedded | Assignment2-Langhgraph_Agents/Part3/agent_demo.py:36-61 | recovery: an object that parses, alone or embedded in prose without braces or back-quotes, is returned |
| GraphExtract.SplitBetweenFences | Assignment2-Langhgraph_Agents/Part3/agent_demo.py:42 | text with one fence at each end splits into "", the body and "" |
| GraphExtract.CandidateAfterTagLine | Assignment2-Langhgraph_Agents/Part3/agent_demo.py:45-46 | a piece made of a language-tag line and an object yields the object as its candidate |
| GraphExtract.ExtractFenced | Assignment2-Langhgraph_Agents/Part3/agent_demo.py:39-51 | recovery: a fenced block with a language tag around an object that parses returns that object |
| AgentGraph.Merge | Assignment2-Langhgraph_Agents/Part3/agent_demo.py:364-368 | `update` with a one-key delta overwrites that key and keeps every other field |
| AgentGraph.SupervisorNode | Assignment2-Langhgraph_Agents/Part3/agent_demo.py:236-240 | the supervisor's delta holds only the counter, raised by one |
| AgentGraph.RouterLogic | Assignment2-Langhgraph_Agents/Part3/agent_demo.py:246-281 | END at turn 5 or later or once a review has no issues; planner exactly when there is no proposal or the feedback has issues; reviewer exactly when a proposal waits without feedback (each as an if-and-only-if) |
| AgentGraph.FeedbackSection | Assignment2-Langhgraph_Agents/Part3/agent_demo.py:100-106 | the revision paragraph is present exactly when the stored feedback has issues, and then it carries the stored issues text |
| AgentGraph.PlannerPromptCarries | Assignment2-Langhgraph_Agents/Part3/agent_demo.py:99-115 | the planner's prompt (`PlannerPrompt`) carries the title, the content and, when the stored feedback has issues, the issues text |
| AgentGraph.PromptParts | Assignment2-Langhgraph_Agents/Part3/agent_demo.py:108-115 | the title, the content and any substring of the feedback paragraph are substrings of the assembled prompt |
| AgentGraph.CapWords | Assignment2-Langhgraph_Agents/Part3/agent_demo.py:137-139 | a summary of at most 25 words is kept; a longer one becomes its first 25 words joined by single spaces; the result never has more than 25 words |
| AgentGraph.Normalize | Assignment2-Langhgraph_Agents/Part3/agent_demo.py:128-139 | validation passes exactly when both keys are present, tags is a list and summary is a string; the result then has exactly 3 tags and at most 25 words |
| AgentGraph.ProposalOf | Assignment2-Langhgraph_Agents/Part3/agent_demo.py:124-152 | whatever the extraction gives, the stored proposal has exactly 3 tags and at most 25 words |
| AgentGraph.NormalizeProposal | Assignment2-Langhgraph_Agents/Part3/agent_demo.py:124-152 | the in-place slice, the padding loop and the cap compute exactly the specified proposal, with the fallback on every failure |
| AgentGraph.PlannerNode | Assignment2-Langhgraph_Agents/Part3/agent_demo.py:86-154 | the delta holds only the proposal obtained from the model's reply to the prompt |
| AgentGraph.PlannerNormalizes | Assignment2-Langhgraph_Agents/Part3/agent_demo.py:128-139 | after a good parse: exactly 3 tags, the first parsed ones then "general", and the capped summary |
| AgentGraph.PlannerFallback | Assignment2-Langhgraph_Agents/Part3/agent_demo.py:146-151 | any extraction or validation failure yields the fixed fallback proposal |
| AgentGraph.ThreeWords | Assignment2-Langhgraph_Agents/Part3/agent_demo.py:150 | three words joined by spaces split back into those three |
| AgentGraph.FallbackWordsAreWords | Assignment2-Langhgraph_Agents/Part3/agent_demo.py:150 | the fallback summary's three parts are words |
| AgentGraph.FallbackShape | Assignment2-Langhgraph_Agents/Part3/agent_demo.py:148-151 | the fallback has 3 tags and the 3-word summary "one word summary" |
| AgentGraph.PlannerShape | Assignment2-Langhgraph_Agents/Part3/agent_demo.py:124-154 | whatever the model replies, the proposal has exactly 3 tags and at most 25 words |
| AgentGraph.FirstUnfilled | Assignment2-Langhgraph_Agents/Part3/agent_demo.py:198 | the first tag that is not a non-blank string: all tags before it are, and it is not |
| AgentGraph.AnyBlankTagDecidedByFirstUnfilled | Assignment2-Langhgraph_Agents/Part3/agent_demo.py:198 | the `any(...)` scan is False without such a tag, True when it is blank, and raises AttributeError when it is a truthy non-string |
| AgentGraph.AnyBlankTag | Assignment2-Langhgraph_Agents/Part3/agent_demo.py:198 | the `any(...)` scan answers False exactly when every tag is a non-blank string; when it raises, some tag is truthy and not a string |
| AgentGraph.BlankTagMakesScanTrue | Assignment2-Langhgraph_Agents/Part3/agent_demo.py:198 | when the scan does not raise and some tag is blank, it answers True |
| AgentGraph.Flag | Assignment2-Langhgraph_Agents/Part3/agent_demo.py:188-203 | a conditional `append` contributes its message exactly when its condition holds |
| AgentGraph.FlagsList | Assignment2-Langhgraph_Agents/Part3/agent_demo.py:186-220 | the five conditional appends collect exactly the messages whose conditions hold, and nothing when none does |
| AgentGraph.IssueList | Assignment2-Langhgraph_Agents/Part3/agent_demo.py:186-220 | each broken rule puts its own message (with the tag count or the word count) in the list; the forced issue comes last; every message is one whose rule fired; the list is empty exactly when no rule fires |
| AgentGraph.VerdictOf | Assignment2-Langhgraph_Agents/Part3/agent_demo.py:223-227 | `has_issues` and `issues` are set exactly when some message was collected, and then `issues` is the messages joined by "; " |
| AgentGraph.VerdictReportsIssue | Assignment2-Langhgraph_Agents/Part3/agent_demo.py:223-224 | every collected message is a substring of the feedback's `issues` text |
| AgentGraph.Review | Assignment2-Langhgraph_Agents/Part3/agent_demo.py:175-227 | a missing proposal gets the fixed "No proposal received" verdict; the review raises exactly when the blank-tag scan raises |
| AgentGraph.ReviewFlagsRuleBreaks | Assignment2-Langhgraph_Agents/Part3/agent_demo.py:175-227 | without the forced issue, a missing proposal is flagged with the fixed message, and a proposal is flagged exactly when it breaks one of the four rules |
| AgentGraph.ReviewReportsBrokenRules | Assignment2-Langhgraph_Agents/Part3/agent_demo.py:186-227 | every broken rule's message, such as "Need exactly 3 tags (got n)" with the actual count, appears in the feedback's `issues` text, and so does the forced issue |
| AgentGraph.ReviewAlwaysFlags | Assignment2-Langhgraph_Agents/Part3/agent_demo.py:217-224 | with `force_issue` on, every verdict has issues |
| AgentGraph.ReviewerNode | Assignment2-Langhgraph_Agents/Part3/agent_demo.py:160-230 | the rule checks that append one message at a time raise exactly when the specified review raises, and otherwise give its verdict |
| AgentGraph.PlannedProposalPassesCounts | Assignment2-Langhgraph_Agents/Part3/agent_demo.py:188-195 | after the planner, the tag-count and word-count rules never fire |
| AgentGraph.Prepend | Assignment2-Langhgraph_Agents/Part3/agent_demo.py:364-369 | putting completed steps in front keeps the outcome kind and extends the trace |
| AgentGraph.PrependTwice | Assignment2-Langhgraph_Agents/Part3/agent_demo.py:364-369 | putting steps in front twice is putting their concatenation in front once |
| AgentGraph.Run | Assignment2-Langhgraph_Agents/Part3/agent_demo.py:246-308 | a finished run ends in a state the router sends to END; a crashed run failed in the reviewer |
| AgentGraph.RunStep | Assignment2-Langhgraph_Agents/Part3/agent_demo.py:299-308 | one round of the graph: supervisor, then END, the planner, or the reviewer (failing or not), then back to the supervisor |
| AgentGraph.RunGraph | Assignment2-Langhgraph_Agents/Part3/agent_demo.py:299-308 | the compiled graph finishes only where the router says END, and can only fail in the reviewer |
| AgentGraph.Execute | Assignment2-Langhgraph_Agents/Part3/agent_demo.py:363-369 | the stream loop that merges each node's delta ends with exactly the outcome of the compiled graph |
| AgentGraph.AlternatingCons | Assignment2-Langhgraph_Agents/Part3/agent_demo.py:302-308 | a supervisor and a stage in front of an alternating trace keep it alternating |
| AgentGraph.RunShape | Assignment2-Langhgraph_Agents/Part3/agent_demo.py:246-308 | a finished run alternates supervisor and stage, ends on a router END, keeps title, content and task, counts a turn per supervisor visit, and stops by turn 5; only the reviewer can fail |
| AgentGraph.StagesBound | Assignment2-Langhgraph_Agents/Part3/agent_demo.py:255-266 | from turn 0 or later a finished run has at most 9 steps |
| AgentGraph.InitialState | Assignment2-Langhgraph_Agents/Part3/agent_demo.py:345-353 | the run starts with no proposal, no feedback and turn 0 |
| AgentGraph.ReviewStatus | Assignment2-Langhgraph_Agents/Part3/agent_demo.py:386 | "approved" exactly when there is no feedback with issues, otherwise "needs_revision" |
| AgentGraph.PublishRecord | Assignment2-Langhgraph_Agents/Part3/agent_demo.py:380-388 | the publish JSON has exactly the keys title, tags, summary and metadata; title is the state's title; tags and summary are the proposal's, or `[]` and `""` without one; metadata holds the turn count and the review status |
| AgentGraph.FixedTrace | Assignment2-Langhgraph_Agents/Part3/agent_demo.py:217-281 | if every verdict has issues, a run from the empty state is S P S R S P S P S, ends at turn 5 with flagged feedback and a planner proposal; otherwise the reviewer fails after S P S |
| AgentGraph.DemoRun | Assignment2-Langhgraph_Agents/Part3/agent_demo.py:345-369 | whatever the model replies, the demo run follows that trace, ends at turn 5 with status "needs_revision" and a proposal of 3 tags and at most 25 words, or crashes in the reviewer after S P S |
| AgentGraph.DemoPublish | Assignment2-Langhgraph_Agents/Part3/agent_demo.py:345-388 | when the demo run finishes, the publish JSON has the blog title, metadata total_turns 5 and review_status "needs_revision", and exactly 3 tags |
| AgentsDemo.ExtractSpan | Assignment1-AgenticAI/Part2/agents_demo.py:65-71 | otherwise the parser sees exactly the greedy match, from the first `{` to the last `}` |
| AgentsDemo.OrEmpty | Assignment1-AgenticAI/Part2/agents_demo.py:145 | `... or {}` turns None into the empty dict and keeps a parsed object |
| AgentsDemo.ExtractJson | Assignment1-AgenticAI/Part2/agents_demo.py:65-67 | without a `{` followed somewhere by a `}`, there is no match and no parse |
| AgentsDemo.CandidateOf | Assignment1-AgenticAI/Part2/agents_demo.py:84-88 | each item contributes at most one candidate |
| AgentsDemo.CandidatesAt | Assignment1-AgenticAI/Part2/agents_demo.py:83-88 | the candidates from position i are item i's candidate followed by the rest |
| AgentsDemo.DedupeCons | Assignment1-AgenticAI/Part2/agents_demo.py:89-93 | a seen key is skipped; a new key is kept and added to seen |
| AgentsDemo.Cleaned | Assignment1-AgenticAI/Part2/agents_demo.py:78-79 | a value that is not a list cleans to the empty list |
| AgentsDemo.CleanTags | Assignment1-AgenticAI/Part2/agents_demo.py:76-94 | the loop with `continue`s, `seen` and `append` computes exactly the specified cleaning |
| AgentsDemo.CandidatesFromInput | Assignment1-AgenticAI/Part2/agents_demo.py:83-88 | every candidate is non-empty, stripped and the strip of some string item |
| AgentsDemo.DedupeIsSubsequence | Assignment1-AgenticAI/Part2/agents_demo.py:83-94 | the cleaned list keeps the input order |
| AgentsDemo.ConsDistinct | Assignment1-AgenticAI/Part2/agents_demo.py:89-93 | an entry with a new key in front keeps the keys distinct |
| AgentsDemo.DedupeKeysDistinct | Assignment1-AgenticAI/Part2/agents_demo.py:89-93 | no kept entry's lower-cased key was seen before, and no two kept entries share a key |
| AgentsDemo.FirstOfKeyShift | Assignment1-AgenticAI/Part2/agents_demo.py:89-93 | being the first of its key group carries over to the rest of the list |
| AgentsDemo.DedupeKeepsFirsts | Assignment1-AgenticAI/Part2/agents_demo.py:89-93 | the kept entries are exactly the first entry of each key group not yet seen |
| AgentsDemo.DedupeOfDistinct | Assignment1-AgenticAI/Part2/agents_demo.py:89-93 | a list with distinct keys is kept whole |
| AgentsDemo.CandidatesOfClean | Assignment1-AgenticAI/Part2/agents_demo.py:84-88 | stripped non-empty strings are their own candidates |
| AgentsDemo.CleanedElements | Assignment1-AgenticAI/Part2/agents_demo.py:76-94 | every cleaned tag is a stripped, non-empty string item of the input; keys are distinct; order is kept |
| AgentsDemo.CleanedKeepsFirsts | Assignment1-AgenticAI/Part2/agents_demo.py:89-93 | the output holds exactly the first occurrence of each case-insensitive group, with its own casing |
| AgentsDemo.CleanedIdempotent | Assignment1-AgenticAI/Part2/agents_demo.py:76-94 | cleaning a cleaned list changes nothing |
| AgentsDemo.FinalTagsNonEmpty | Assignment1-AgenticAI/Part2/agents_demo.py:104-111 | every finalised tag is a non-empty string |
| AgentsDemo.FinalizeOutput | Assignment1-AgenticAI/Part2/agents_demo.py:97-113 | exactly the keys tags and summary; tags are the cleaned tags cut or padded to 3; the summary is passed through |
| AgentsDemo.FinalTagsShape | Assignment1-AgenticAI/Part2/agents_demo.py:107-111 | exactly 3 tags: the first min(3, n) cleaned ones, then "general" |
| AgentsDemo.PaddingCanDuplicate | Assignment1-AgenticAI/Part2/agents_demo.py:108-111 | padding can reintroduce a case-insensitive duplicate: "General" is finalised to "General", "general", "general" |
| AgentsDemo.CleanedSingle | Assignment1-AgenticAI/Part2/agents_demo.py:83-93 | one stripped, non-empty tag is kept as it is |
| AgentsDemo.Ask | Assignment1-AgenticAI/Part2/agents_demo.py:138-146 | an agent's text is the chat reply; its object is the extracted one, or `{}` |
| AgentsDemo.PlannerMessage | Assignment1-AgenticAI/Part2/agents_demo.py:132-136 | the planner's user message carries the title and the content |
| AgentsDemo.PlannerAgent | Assignment1-AgenticAI/Part2/agents_demo.py:119-146 | the planner's text is the endpoint's reply to its system prompt and user message; its object is the one parsed from the reply's braced span, or `{}` when there is none |
| AgentsDemo.ReviewerMessage | Assignment1-AgenticAI/Part2/agents_demo.py:161-164 | the reviewer's user message carries the planner's object as JSON text |
| AgentsDemo.ReviewerAgent | Assignment1-AgenticAI/Part2/agents_demo.py:149-174 | the reviewer's text is the endpoint's reply to its system prompt and user message; its object is the one parsed from the reply's braced span, or `{}` when there is none |
| AgentsDemo.FinalizerMessage | Assignment1-AgenticAI/Part2/agents_demo.py:200-204 | the finaliser's user message carries the reviewer's object as JSON text |
| AgentsDemo.FinalizerAgent | Assignment1-AgenticAI/Part2/agents_demo.py:176-214 | the finaliser's text is the endpoint's reply to its system prompt and user message; its object is the one parsed from the reply's braced span, or `{}` when there is none |
| AgentsDemo.RunAgentWorkflow | Assignment1-AgenticAI/Part2/agents_demo.py:221-243 | each agent receives the previous agent's object; the result is the object parsed from the finaliser's reply, or `{}` when there is none |
| AgentsDemo.WorkflowCanReturnEmpty | Assignment1-AgenticAI/Part2/agents_demo.py:237-243 | as written, a silent finaliser makes the workflow return `{}` |
| AgentsDemo.RunAgentWorkflowEnforced | Assignment1-AgenticAI/Part2/agents_demo.py:221-243 | with `finalize_output` applied to the finaliser's object: exactly the keys tags and summary, exactly 3 non-empty string tags derived from the finaliser's tags, and the finaliser's summary passed through |
| BookLibrary.Search | Assignment2-Langhgraph_Agents/Part1_and_2/main.py:43-57 | a missing or empty query shows every book; otherwise exactly the books whose lower-cased title contains the lower-cased query, in table order |
| BookLibrary.SubsequenceRefl | Assignment2-Langhgraph_Agents/Part1_and_2/main.py:56 | the whole table is in table order |
| BookLibrary.ContainsSubLower | Assignment2-Langhgraph_Agents/Part1_and_2/main.py:47 | a substring stays a substring after both are lower-cased |
| BookLibrary.SearchIgnoresQueryCase | Assignment2-Langhgraph_Agents/Part1_and_2/main.py:47 | searching for the lower-cased query gives the same books |
| BookLibrary.SearchFindsVerbatim | Assignment2-Langhgraph_Agents/Part1_and_2/main.py:45-48 | a book whose title contains the query verbatim is always found |
| BookLibrary.FirstWithId | Assignment2-Langhgraph_Agents/Part1_and_2/main.py:94 | None exactly when no record has the id; otherwise the first position holding it |
| BookLibrary.FirstWithIdAt | Assignment2-Langhgraph_Agents/Part1_and_2/main.py:94 | a position with the id and none before it is the one found |
| BookLibrary.UpdatedFirst | Assignment2-Langhgraph_Agents/Part1_and_2/main.py:112-116 | the update keeps the length and every id, gives the first record with the id the new title and author, changes no other record, and changes nothing without a match |
| BookLibrary.WithoutId | Assignment2-Langhgraph_Agents/Part1_and_2/main.py:128 | deleting by id keeps exactly the records with another id, in order |
| BookLibrary.HeadIdFresh | Assignment2-Langhgraph_Agents/Part1_and_2/main.py:128 | in a table with distinct ids, the first id is not repeated and the rest stay distinct |
| BookLibrary.ConsUnique | Assignment2-Langhgraph_Agents/Part1_and_2/main.py:128 | a record with a new id in front keeps ids distinct |
| BookLibrary.KeepUnique | Assignment2-Langhgraph_Agents/Part1_and_2/main.py:128 | filtering a table with distinct ids keeps them distinct |
| BookLibrary.WithoutMissingId | Assignment2-Langhgraph_Agents/Part1_and_2/main.py:128 | deleting an id that no record has changes nothing |
| BookLibrary.WithoutIdExact | Assignment2-Langhgraph_Agents/Part1_and_2/main.py:128 | when no other record shares record k's id, deleting that id removes exactly record k |
| BookLibrary.WithoutHeadId | Assignment2-Langhgraph_Agents/Part1_and_2/main.py:128 | deleting the first record's unshared id leaves the rest |
| BookLibrary.WithoutIdCons | Assignment2-Langhgraph_Agents/Part1_and_2/main.py:128 | a record with another id in front survives the delete |
| BookLibrary.WithoutIdUnfold | Assignment2-Langhgraph_Agents/Part1_and_2/main.py:128 | one step of the delete filter |
| BookLibrary.MaxBook | Assignment2-Langhgraph_Agents/Part1_and_2/main.py:145 | `max` by id returns a record of the table whose id no other record exceeds, and no record before it has that id: the first maximum, as `max` returns it |
| BookLibrary.DeleteHighestShape | Assignment2-Langhgraph_Agents/Part1_and_2/main.py:143-147 | with distinct ids, deleting the highest id removes exactly that one record; every remaining id is smaller |
| BookLibrary.Library.constructor | Assignment2-Langhgraph_Agents/Part1_and_2/main.py:16-23 | the three seed books with ids 1 to 3 and the counter at 4; the invariant holds |
| BookLibrary.Library.GetNextId | Assignment2-Langhgraph_Agents/Part1_and_2/main.py:26-31 | returns the counter and raises it by exactly one; the table is untouched |
| BookLibrary.Library.Home | Assignment2-Langhgraph_Agents/Part1_and_2/main.py:43-57 | the list shown is the search result over the current table |
| BookLibrary.Library.AddBook | Assignment2-Langhgraph_Agents/Part1_and_2/main.py:78-83 | appends exactly one record, with the old counter as its id and the given title and author; the id is above every existing one; ids stay distinct and below the counter |
| BookLibrary.Library.UpdateBookForm | Assignment2-Langhgraph_Agents/Part1_and_2/main.py:94-97 | None exactly when no record has the id; otherwise the first record with it |
| BookLibrary.Library.UpdateBook | Assignment2-Langhgraph_Agents/Part1_and_2/main.py:112-116 | the loop with `break` sets title and author of the first matching record only; the counter and the invariant are kept |
| BookLibrary.Library.DeleteBook | Assignment2-Langhgraph_Agents/Part1_and_2/main.py:128 | the new table is the old one without the records with the id; the counter and the invariant are kept |
| BookLibrary.Library.DeleteHighestId | Assignment2-Langhgraph_Agents/Part1_and_2/main.py:143-147 | an empty table stays empty; otherwise the records carrying the highest id are removed; the counter is unchanged, so ids are not reused |

## Left out

- The HTTP calls to the Ollama server (`ollama_chat`, `ChatOllama`) and their options (temperature, timeouts, token limits) are not modelled. The model's reply is an arbitrary function of the prompt, passed in as a parameter.
- `json.loads` and `json.dumps` are parameters, not implementations. `json.loads` is only ever applied to text that starts with `{`, so its result is modelled as an optional object. JSON floats are not modelled; numbers are integers.
- `str.strip`, `str.split()`, `str.lower` and the `\s` class of the summary regular expression (`SeparatorChars`) use the six ASCII whitespace characters (space, tab, newline, carriage return, vertical tab, form feed) and ASCII lower-casing. Python also treats the separators \x1c to \x1f, \x85 and other Unicode whitespace as whitespace and lower-cases non-ASCII letters, so a title such as "García Márquez" is searched without Unicode case folding.
- `re.IGNORECASE` in the summary regular expression is modelled by ASCII lower-casing of the seven letters of `summary`.
- The reviewer's semantic relevance call to the model is left out (Assignment2-Langhgraph_Agents/Part3/agent_demo.py:205-212). Its answer is never read, and an exception from that call is not modelled.
- The LangGraph library itself is not part of this model: graph compilation, the `stream` scheduler and the recursion limit of 25 super-steps. The graph is modelled as the supervisor, the router and the two stages. `StagesBound` shows a run takes at most 9 steps, so the recursion limit is never reached.
- AgentGraph.Proposal: only `tags` and `summary` of the planner's object are stored. Extra keys the model returns are dropped, because no code reads them.
- All `print` output, the demo blog title and content (they are parameters of `DemoRun`), and `main` of the three-agent workflow are left out.
- FastAPI routing, templates, forms, redirects, static files and `uvicorn` are left out. Each handler is a method on `Library`; the path parameter `book_id` is an `int` argument.
- BookLibrary.Library.UpdateBookForm: the source hands the template the same dict object that is stored in the table; the model returns a copy of the record, so aliasing is not modelled.

## Findings

| source | as written | input that shows it | evidently intended | confidence | as-written member | corrected member |
|---|---|---|---|---|---|---|
| Assignment1-AgenticAI/Part2/agents_demo.py:221-243 | `run_agent_workflow` returns the finaliser's parsed object as it is; `finalize_output` (lines 97-113) is never called | a finaliser reply with no `{`...`}` span, such as the empty reply, makes the workflow return `{}`, which has no tags | the returned object goes through `finalize_output`: exactly the keys tags and summary and exactly 3 non-empty tags | not executed | AgentsDemo.WorkflowCanReturnEmpty | AgentsDemo.RunAgentWorkflowEnforced |
