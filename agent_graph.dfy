/** The turn-bounded Planner/Reviewer graph of the LangGraph agent
    (Assignment2-Langhgraph_Agents/Part3/agent_demo.py): the shared state,
    the supervisor's counter step, the router, the planner and reviewer
    stages and the execution of the compiled graph with its shallow merge
    of partial updates. The language model is an oracle `string -> string`
    and `json.loads` an abstract parser, both passed in. */
module AgentGraph {
  import opened Values
  import opened Seqs
  import opened Text
  import GraphExtract

  // ---------------------------------------------------------------------
  // State
  // ---------------------------------------------------------------------

  /** A planner proposal after normalisation: the tag list (whatever JSON
      values the model produced, or the "general" filler) and the summary. */
  datatype Proposal = Proposal(tags: seq<Json>, summary: string)

  /** Reviewer feedback: `has_issues` and `issues` (None when approved). */
  datatype Verdict = Verdict(hasIssues: bool, issues: Option<string>)

  /** `AgentState`. An empty dict `{}` under `planner_proposal` or
      `reviewer_feedback` is None; a stored proposal or verdict is a
      non-empty dict, so Some is exactly the truthy case. */
  datatype AgentState = AgentState(
    title: string,
    content: string,
    task: string,
    proposal: Option<Proposal>,
    feedback: Option<Verdict>,
    turnCount: int)

  /** The partial update a node returns: a dict with a single key. */
  datatype Update =
    | SetTurn(turn: int)
    | SetProposal(p: Proposal)
    | SetFeedback(v: Verdict)

  /** The shallow key overwrite the graph applies after each node. */
  function Merge(s: AgentState, u: Update): (r: AgentState)
    ensures r.title == s.title && r.content == s.content && r.task == s.task
    ensures u.SetTurn? ==> r == s.(turnCount := u.turn)
    ensures u.SetProposal? ==> r == s.(proposal := Some(u.p))
    ensures u.SetFeedback? ==> r == s.(feedback := Some(u.v))
  {
    match u
    case SetTurn(n) => s.(turnCount := n)
    case SetProposal(p) => s.(proposal := Some(p))
    case SetFeedback(v) => s.(feedback := Some(v))
  }

  const MaxTurns := 5

  // ---------------------------------------------------------------------
  // Supervisor and router
  // ---------------------------------------------------------------------

  /** `supervisor_node`: the delta holds only the incremented counter. */
  function SupervisorNode(s: AgentState): (u: Update)
    ensures u.SetTurn? && Merge(s, u) == s.(turnCount := s.turnCount + 1)
  {
    SetTurn(s.turnCount + 1)
  }

  datatype Route = ToPlanner | ToReviewer | ToEnd

  /** `router_logic`. */
  function RouterLogic(s: AgentState): (r: Route)
    ensures s.turnCount >= MaxTurns ==> r == ToEnd
    ensures r == ToPlanner <==>
              s.turnCount < MaxTurns && (s.proposal.None? || (s.feedback.Some? && s.feedback.value.hasIssues))
    ensures r == ToReviewer <==> s.turnCount < MaxTurns && s.proposal.Some? && s.feedback.None?
    ensures r == ToEnd <==>
              s.turnCount >= MaxTurns || (s.proposal.Some? && s.feedback.Some? && !s.feedback.value.hasIssues)
  {
    if s.turnCount >= MaxTurns then ToEnd
    else if s.proposal.None? then ToPlanner
    else if s.feedback.None? then ToReviewer
    else if s.feedback.value.hasIssues then ToPlanner
    else ToEnd
  }

  // ---------------------------------------------------------------------
  // Planner
  // ---------------------------------------------------------------------

  const FallbackProposal := Proposal([Str("tag1"), Str("tag2"), Str("tag3")], "one word summary")

  const TagCount := 3

  const MaxWords := 25

  /** `feedback.get('issues', '')` formatted into the prompt. */
  function IssuesText(issues: Option<string>): string {
    match issues
    case None => "None"
    case Some(text) => text
  }

  /** The revision paragraph: present exactly when the stored feedback has
      issues. */
  function FeedbackSection(fb: Option<Verdict>): (r: string)
    ensures r == "" <==> !(fb.Some? && fb.value.hasIssues)
    ensures fb.Some? && fb.value.hasIssues ==> ContainsSub(r, IssuesText(fb.value.issues))
  {
    if fb.Some? && fb.value.hasIssues then
      var head := "\n\nThe Reviewer found problems with your previous answer. Fix these issues:\n";
      ContainsPiece(head, IssuesText(fb.value.issues), "");
      assert head + IssuesText(fb.value.issues) + "" == head + IssuesText(fb.value.issues);
      head + IssuesText(fb.value.issues)
    else ""
  }

  /** The fixed pieces of the planner's prompt. */
  datatype PromptPiece = PromptHead | PromptMid | PromptTail

  function PromptText(piece: PromptPiece): string {
    match piece
    case PromptHead => "Analyze this blog post. Return ONLY a JSON object \U{2014} no other text.\n\nBlog Title: "
    case PromptMid => "\nBlog Content: "
    case PromptTail =>
      "\n\nReturn this exact JSON format:\n{\"tags\": [\"tag1\", \"tag2\", \"tag3\"], \"summary\": \"one sentence, max 25 words\"}"
  }

  /** The planner's prompt. */
  function PlannerPrompt(s: AgentState): string {
    PromptText(PromptHead) + s.title + PromptText(PromptMid) + s.content + "\n" + FeedbackSection(s.feedback) + PromptText(PromptTail)
  }

  /** The prompt carries the title, the content and, after a review with
      issues, the reviewer's issues text back to the model. */
  lemma PlannerPromptCarries(s: AgentState)
    ensures ContainsSub(PlannerPrompt(s), s.title) && ContainsSub(PlannerPrompt(s), s.content)
    ensures s.feedback.Some? && s.feedback.value.hasIssues ==>
              ContainsSub(PlannerPrompt(s), IssuesText(s.feedback.value.issues))
  {
    var fb := FeedbackSection(s.feedback);
    var sub := if s.feedback.Some? then IssuesText(s.feedback.value.issues) else "";
    PromptParts(PromptText(PromptHead), s.title, PromptText(PromptMid), s.content, fb, PromptText(PromptTail), sub);
  }

  /** The pieces the planner's prompt is assembled from are substrings of
      it, and so is anything inside the feedback section. */
  lemma PromptParts(head: string, title: string, mid: string, content: string, fb: string, tail: string, sub: string)
    ensures var r := head + title + mid + content + "\n" + fb + tail;
            ContainsSub(r, title) && ContainsSub(r, content) && (ContainsSub(fb, sub) ==> ContainsSub(r, sub))
  {
    var r := head + title + mid + content + "\n" + fb + tail;
    ContainsPiece(head, title, mid + content + "\n" + fb + tail);
    assert r == head + title + (mid + content + "\n" + fb + tail);
    ContainsPiece(head + title + mid, content, "\n" + fb + tail);
    assert r == head + title + mid + content + ("\n" + fb + tail);
    if ContainsSub(fb, sub) {
      ContainsWithin(head + title + mid + content + "\n", fb, tail, sub);
    }
  }

  /** A summary of more than 25 words becomes its first 25 words joined by
      single spaces; a shorter one is kept as it is. */
  function CapWords(summary: string): (r: string)
    ensures |Words(summary)| <= MaxWords ==> r == summary
    ensures |Words(summary)| > MaxWords ==> Words(r) == Words(summary)[..MaxWords]
    ensures |Words(summary)| > MaxWords ==> r == JoinWith(Words(summary)[..MaxWords], " ")
    ensures |Words(r)| <= MaxWords
  {
    var words := Words(summary);
    if |words| > MaxWords then
      assert forall w <- words[..MaxWords] :: w in words;
      WordsOfJoin(words[..MaxWords]);
      JoinWith(words[..MaxWords], " ")
    else summary
  }

  /** The validation and normalisation of the parsed object; None where the
      source raises inside its `try` (a missing key, a tag value that is
      not a list, or a summary without `split`). */
  function Normalize(obj: Record): (r: Option<Proposal>)
    ensures r.Some? <==> "tags" in obj && "summary" in obj && obj["tags"].Arr? && obj["summary"].Str?
    ensures r.Some? ==> |r.value.tags| == TagCount && |Words(r.value.summary)| <= MaxWords
  {
    if "tags" !in obj || "summary" !in obj || !obj["tags"].Arr? || !obj["summary"].Str? then None
    else Some(Proposal(TruncatePad(obj["tags"].items, TagCount, Str("general")), CapWords(obj["summary"].s)))
  }

  /** The proposal `planner_node` settles on for the extractor's outcome. */
  function ProposalOf(extracted: Result<Record>): (p: Proposal)
    ensures |p.tags| == TagCount && |Words(p.summary)| <= MaxWords
  {
    FallbackShape();
    match extracted
    case Raised(_) => FallbackProposal
    case Ok(obj) =>
      match Normalize(obj)
      case None => FallbackProposal
      case Some(p) => p
  }

  /** The proposal `planner_node` settles on for a model reply. */
  function ProposalFromReply(reply: string, parse: Parser): Proposal {
    ProposalOf(GraphExtract.Extract(reply, parse))
  }

  /** The proposal the planner produces in state s. */
  function PlannerProposal(s: AgentState, llm: string -> string, parse: Parser): Proposal {
    ProposalFromReply(llm(PlannerPrompt(s)), parse)
  }

  /** The `try` block of `planner_node`: the checks, the slice, the padding
      loop and the word cap, with the fallback on every failure. */
  method NormalizeProposal(extracted: Result<Record>) returns (proposal: Proposal)
    ensures proposal == ProposalOf(extracted)
  {
    proposal := FallbackProposal;
    if extracted.Ok? {
      var obj := extracted.value;
      if "tags" in obj && "summary" in obj && obj["tags"].Arr? {
        ghost var target := TruncatePad(obj["tags"].items, TagCount, Str("general"));
        var tags := obj["tags"].items[..Min(TagCount, |obj["tags"].items|)];
        while |tags| < TagCount
          invariant |tags| <= TagCount
          invariant tags == target[..|tags|]
          decreases TagCount - |tags|
        {
          tags := tags + [Str("general")];
        }
        assert tags == target;
        if obj["summary"].Str? {
          var summary := obj["summary"].s;
          var words := Words(summary);
          if |words| > MaxWords {
            summary := JoinWith(words[..MaxWords], " ");
          }
          proposal := Proposal(tags, summary);
        }
      }
    }
  }

  /** `planner_node`: prompt the model, extract, normalise. */
  method PlannerNode(s: AgentState, llm: string -> string, parse: Parser) returns (u: Update)
    ensures u == SetProposal(PlannerProposal(s, llm, parse))
  {
    var reply := llm(PlannerPrompt(s));
    var extracted := GraphExtract.ExtractJson(reply, parse);
    var proposal := NormalizeProposal(extracted);
    return SetProposal(proposal);
  }

  /** After a successful parse with a tag list and a string summary, the
      proposal holds the first three parsed tags padded with "general", and
      the summary capped at 25 words. */
  lemma PlannerNormalizes(reply: string, parse: Parser)
    requires GraphExtract.Extract(reply, parse).Ok?
    requires var obj := GraphExtract.Extract(reply, parse).value;
             "tags" in obj && "summary" in obj && obj["tags"].Arr? && obj["summary"].Str?
    ensures var obj := GraphExtract.Extract(reply, parse).value;
            var p := ProposalFromReply(reply, parse);
            |p.tags| == 3 &&
            (forall k :: 0 <= k < Min(3, |obj["tags"].items|) ==> p.tags[k] == obj["tags"].items[k]) &&
            (forall k :: Min(3, |obj["tags"].items|) <= k < 3 ==> p.tags[k] == Str("general")) &&
            p.summary == CapWords(obj["summary"].s)
  {
  }

  /** On any extraction or validation failure the planner falls back to the
      fixed proposal. */
  lemma PlannerFallback(reply: string, parse: Parser)
    requires GraphExtract.Extract(reply, parse).Raised? ||
             Normalize(GraphExtract.Extract(reply, parse).value).None?
    ensures ProposalFromReply(reply, parse) == FallbackProposal
  {
  }

  lemma ThreeWords(a: string, b: string, c: string)
    requires IsWord(a) && IsWord(b) && IsWord(c)
    ensures Words(a + " " + (b + " " + c)) == [a, b, c]
  {
    WordsCons(a, b + " " + c);
    WordsCons(b, c);
    WordsOfWord(c);
  }

  lemma FallbackWordsAreWords()
    ensures IsWord("one") && IsWord("word") && IsWord("summary")
  {
  }

  lemma FallbackShape()
    ensures |FallbackProposal.tags| == TagCount
    ensures Words(FallbackProposal.summary) == ["one", "word", "summary"]
  {
    FallbackWordsAreWords();
    ThreeWords("one", "word", "summary");
    assert FallbackProposal.summary == "one" + " " + ("word" + " " + "summary");
  }

  /** Whatever the reply, the proposal has exactly 3 tags and at most 25
      words of summary. */
  lemma PlannerShape(reply: string, parse: Parser)
    ensures |ProposalFromReply(reply, parse).tags| == TagCount
    ensures |Words(ProposalFromReply(reply, parse).summary)| <= MaxWords
  {
    var e := GraphExtract.Extract(reply, parse);
    if e.Raised? || Normalize(e.value).None? {
      FallbackShape();
    }
  }

  // ---------------------------------------------------------------------
  // Reviewer
  // ---------------------------------------------------------------------

  /** `any(not t or not t.strip() for t in tags)`: a falsy tag or a string
      tag that strips to nothing is blank; the scan stops there. A truthy
      tag that is not a string raises AttributeError on `strip`. */
  function AnyBlankTag(tags: seq<Json>): (r: Result<bool>)
    ensures r == Ok(false) <==> forall k :: 0 <= k < |tags| ==> FilledTag(tags[k])
    ensures r.Raised? ==> exists k :: 0 <= k < |tags| && Truthy(tags[k]) && !tags[k].Str?
  {
    if tags == [] then Ok(false)
    else if !Truthy(tags[0]) then Ok(true)
    else if !tags[0].Str? then Raised("'" + TypeName(tags[0]) + "' object has no attribute 'strip'")
    else if Strip(tags[0].s) == "" then Ok(true)
    else AnyBlankTag(tags[1..])
  }

  /** A tag the scan passes over: a string that is not blank. */
  predicate FilledTag(t: Json) {
    t.Str? && Strip(t.s) != ""
  }

  /** A tag that stops the scan with `True`. */
  predicate BlankTag(t: Json) {
    !Truthy(t) || (t.Str? && Strip(t.s) == "")
  }

  /** The position of the first tag that is not a filled string, or the
      length when there is none. */
  function FirstUnfilled(tags: seq<Json>): (i: nat)
    ensures i <= |tags|
    ensures forall m :: 0 <= m < i ==> FilledTag(tags[m])
    ensures i < |tags| ==> !FilledTag(tags[i])
  {
    if tags == [] || !FilledTag(tags[0]) then 0 else 1 + FirstUnfilled(tags[1..])
  }

  /** The scan is decided by the first tag that is not a filled string:
      False when there is none, True when that tag is blank, and the
      AttributeError when it is a truthy non-string. */
  lemma {:induction false} AnyBlankTagDecidedByFirstUnfilled(tags: seq<Json>)
    ensures var i := FirstUnfilled(tags);
            AnyBlankTag(tags) ==
              if i == |tags| then Ok(false)
              else if BlankTag(tags[i]) then Ok(true)
              else Raised("'" + TypeName(tags[i]) + "' object has no attribute 'strip'")
  {
    if tags != [] && FilledTag(tags[0]) {
      AnyBlankTagDecidedByFirstUnfilled(tags[1..]);
    }
  }

  const NoProposalIssue := "No proposal received from Planner."

  const ForcedIssue := "FORCED TEST ISSUE: Please revise the tags to be more specific."

  /** `force_issue = True`, hard-wired in the reviewer. */
  const ForceIssue := true

  /** The messages of the violated rules, in rule order; blank is the
      answer of the rule-3 scan. */
  function IssueList(p: Proposal, blank: bool, forceIssue: bool): (r: seq<string>)
    ensures |p.tags| != TagCount ==> CountMessage(|p.tags|) in r
    ensures |Words(p.summary)| > MaxWords ==> LengthMessage(|Words(p.summary)|) in r
    ensures blank ==> BlankMessage in r
    ensures Strip(p.summary) == "" ==> EmptyMessage in r
    ensures forceIssue ==> r != [] && r[|r| - 1] == ForcedIssue
    ensures forall m <- r ::
              (m == CountMessage(|p.tags|) && |p.tags| != TagCount) ||
              (m == LengthMessage(|Words(p.summary)|) && |Words(p.summary)| > MaxWords) ||
              (m == BlankMessage && blank) || (m == EmptyMessage && Strip(p.summary) == "") ||
              (m == ForcedIssue && forceIssue)
    ensures r == [] <==>
              |p.tags| == TagCount && |Words(p.summary)| <= MaxWords && !blank && Strip(p.summary) != "" && !forceIssue
  {
    FlagsList(|p.tags| != TagCount, |Words(p.summary)| > MaxWords, blank, Strip(p.summary) == "", forceIssue,
              CountMessage(|p.tags|), LengthMessage(|Words(p.summary)|), BlankMessage, EmptyMessage, ForcedIssue);
    CountIssue(p) + LengthIssue(p) + BlankIssue(blank) + EmptyIssue(p) + ForcedIssues(forceIssue)
  }

  /** A message when its condition holds, nothing otherwise. */
  function Flag(c: bool, m: string): (r: seq<string>)
    ensures forall x :: x in r <==> c && x == m
    ensures r == [] <==> !c
  {
    if c then [m] else []
  }

  /** Five flagged messages in a row: each message whose condition holds is
      there, the last condition puts its message last, nothing else is
      there, and the list is empty exactly when no condition holds. */
  lemma FlagsList(c1: bool, c2: bool, c3: bool, c4: bool, c5: bool,
                  m1: string, m2: string, m3: string, m4: string, m5: string)
    ensures var r := Flag(c1, m1) + Flag(c2, m2) + Flag(c3, m3) + Flag(c4, m4) + Flag(c5, m5);
            (c1 ==> m1 in r) && (c2 ==> m2 in r) && (c3 ==> m3 in r) && (c4 ==> m4 in r) &&
            (c5 ==> r != [] && r[|r| - 1] == m5) &&
            (forall m <- r :: (m == m1 && c1) || (m == m2 && c2) || (m == m3 && c3) || (m == m4 && c4) || (m == m5 && c5)) &&
            (r == [] <==> !c1 && !c2 && !c3 && !c4 && !c5)
  {
  }

  /** The message of rule 1, with the tag count. */
  function CountMessage(n: nat): string {
    "Need exactly 3 tags (got " + NatToString(n) + ")"
  }

  /** The message of rule 2, with the word count. */
  function LengthMessage(n: nat): string {
    "Summary too long (" + NatToString(n) + " words, max 25)"
  }

  const BlankMessage := "One or more tags are empty"

  const EmptyMessage := "Summary is empty"

  /** Rule 1: exactly three tags. */
  function CountIssue(p: Proposal): seq<string> {
    Flag(|p.tags| != TagCount, CountMessage(|p.tags|))
  }

  /** Rule 2: at most 25 words. */
  function LengthIssue(p: Proposal): seq<string> {
    var wordCount := |Words(p.summary)|;
    Flag(wordCount > MaxWords, LengthMessage(wordCount))
  }

  /** Rule 3: no blank tag. */
  function BlankIssue(blank: bool): seq<string> {
    Flag(blank, BlankMessage)
  }

  /** Rule 4: a non-blank summary. */
  function EmptyIssue(p: Proposal): seq<string> {
    Flag(Strip(p.summary) == "", EmptyMessage)
  }

  /** The forced demonstration issue. */
  function ForcedIssues(forceIssue: bool): seq<string> {
    Flag(forceIssue, ForcedIssue)
  }

  /** The feedback dict built from the collected messages. */
  function VerdictOf(issues: seq<string>): (v: Verdict)
    ensures v.hasIssues <==> issues != []
    ensures v.issues.Some? <==> issues != []
    ensures issues != [] ==> v.issues == Some(JoinWith(issues, "; "))
  {
    if issues != [] then Verdict(true, Some(JoinWith(issues, "; "))) else Verdict(false, None)
  }

  /** Every collected message appears in the issues text of the verdict. */
  lemma VerdictReportsIssue(issues: seq<string>, m: string)
    requires m in issues
    ensures VerdictOf(issues).issues.Some? && ContainsSub(VerdictOf(issues).issues.value, m)
  {
    var k :| 0 <= k < |issues| && issues[k] == m;
    JoinContains(issues, "; ", k);
  }

  /** The verdict of `reviewer_node` on the stored proposal, or the
      exception its rule-3 scan raises. */
  function Review(p: Option<Proposal>, forceIssue: bool): (r: Result<Verdict>)
    ensures p.None? ==> r == Ok(Verdict(true, Some(NoProposalIssue)))
    ensures r.Raised? <==> p.Some? && AnyBlankTag(p.value.tags).Raised?
  {
    match p
    case None => Ok(Verdict(true, Some(NoProposalIssue)))
    case Some(proposal) =>
      match AnyBlankTag(proposal.tags)
      case Raised(e) => Raised(e)
      case Ok(blank) => Ok(VerdictOf(IssueList(proposal, blank, forceIssue)))
  }

  /** A proposal that breaks one of the four rules. */
  predicate BreaksARule(p: Proposal) {
    |p.tags| != TagCount || |Words(p.summary)| > MaxWords ||
    (exists k :: 0 <= k < |p.tags| && BlankTag(p.tags[k])) || Strip(p.summary) == ""
  }

  /** Without the forced issue, a proposal is flagged exactly when it breaks
      a rule; an absent proposal is always flagged. */
  lemma ReviewFlagsRuleBreaks(p: Option<Proposal>)
    requires Review(p, false).Ok?
    ensures p.None? ==> Review(p, false).value == Verdict(true, Some(NoProposalIssue))
    ensures p.Some? ==> (Review(p, false).value.hasIssues <==> BreaksARule(p.value))
  {
    if p.Some? {
      var tags := p.value.tags;
      AnyBlankTagDecidedByFirstUnfilled(tags);
      var i := FirstUnfilled(tags);
      if i == |tags| {
        assert forall k :: 0 <= k < |tags| ==> !BlankTag(tags[k]) by {
          forall k | 0 <= k < |tags| ensures !BlankTag(tags[k]) {
            assert FilledTag(tags[k]);
          }
        }
      }
    }
  }

  /** Each broken rule leaves its own message, counts included, in the
      issues text, and so does the forced issue. */
  lemma ReviewReportsBrokenRules(p: Proposal, forceIssue: bool)
    requires Review(Some(p), forceIssue).Ok?
    ensures var v := Review(Some(p), forceIssue).value;
            (|p.tags| != TagCount ==> v.issues.Some? && ContainsSub(v.issues.value, CountMessage(|p.tags|))) &&
            (|Words(p.summary)| > MaxWords ==>
               v.issues.Some? && ContainsSub(v.issues.value, LengthMessage(|Words(p.summary)|))) &&
            ((exists k :: 0 <= k < |p.tags| && BlankTag(p.tags[k])) ==>
               v.issues.Some? && ContainsSub(v.issues.value, BlankMessage)) &&
            (Strip(p.summary) == "" ==> v.issues.Some? && ContainsSub(v.issues.value, EmptyMessage)) &&
            (forceIssue ==> v.issues.Some? && ContainsSub(v.issues.value, ForcedIssue))
  {
    var blank := AnyBlankTag(p.tags).value;
    var issues := IssueList(p, blank, forceIssue);
    assert Review(Some(p), forceIssue).value == VerdictOf(issues);
    if |p.tags| != TagCount {
      VerdictReportsIssue(issues, CountMessage(|p.tags|));
    }
    if |Words(p.summary)| > MaxWords {
      VerdictReportsIssue(issues, LengthMessage(|Words(p.summary)|));
    }
    if exists k :: 0 <= k < |p.tags| && BlankTag(p.tags[k]) {
      BlankTagMakesScanTrue(p.tags);
      VerdictReportsIssue(issues, BlankMessage);
    }
    if Strip(p.summary) == "" {
      VerdictReportsIssue(issues, EmptyMessage);
    }
    if forceIssue {
      VerdictReportsIssue(issues, ForcedIssue);
    }
  }

  /** A scan that does not raise answers True when some tag is blank. */
  lemma BlankTagMakesScanTrue(tags: seq<Json>)
    requires AnyBlankTag(tags).Ok?
    requires exists k :: 0 <= k < |tags| && BlankTag(tags[k])
    ensures AnyBlankTag(tags) == Ok(true)
  {
    var k :| 0 <= k < |tags| && BlankTag(tags[k]);
    assert !FilledTag(tags[k]);
    AnyBlankTagDecidedByFirstUnfilled(tags);
    var i := FirstUnfilled(tags);
    assert i <= k;
  }

  /** With `force_issue` set, every verdict the reviewer reaches has issues,
      and the forced message is always the last one. */
  lemma ReviewAlwaysFlags(p: Option<Proposal>)
    requires Review(p, ForceIssue).Ok?
    ensures Review(p, ForceIssue).value.hasIssues
    ensures p.Some? ==> Review(p, ForceIssue).value.issues.Some?
  {
  }

  /** `reviewer_node`: the rule checks append their messages one by one.
      The semantic YES/NO answer of the model is never consulted. */
  method ReviewerNode(s: AgentState) returns (r: Result<Update>)
    ensures r.Raised? <==> Review(s.proposal, ForceIssue).Raised?
    ensures r.Raised? ==> r.error == Review(s.proposal, ForceIssue).error
    ensures r.Ok? ==> r.value == SetFeedback(Review(s.proposal, ForceIssue).value)
  {
    if s.proposal.None? {
      return Ok(SetFeedback(Verdict(true, Some(NoProposalIssue))));
    }
    var tags := s.proposal.value.tags;
    var summary := s.proposal.value.summary;
    ghost var p := s.proposal.value;
    var issues: seq<string> := [];
    if |tags| != TagCount {
      issues := issues + [CountMessage(|tags|)];
    }
    assert issues == CountIssue(p);
    var wordCount := |Words(summary)|;
    if wordCount > MaxWords {
      issues := issues + [LengthMessage(wordCount)];
    }
    assert issues == CountIssue(p) + LengthIssue(p);
    var blank := AnyBlankTag(tags);
    if blank.Raised? {
      return Raised(blank.error);
    }
    if blank.value {
      issues := issues + [BlankMessage];
    }
    assert issues == CountIssue(p) + LengthIssue(p) + BlankIssue(blank.value);
    if Strip(summary) == "" {
      issues := issues + [EmptyMessage];
    }
    assert issues == CountIssue(p) + LengthIssue(p) + BlankIssue(blank.value) + EmptyIssue(p);
    if ForceIssue {
      issues := issues + [ForcedIssue];
    }
    assert issues == IssueList(s.proposal.value, blank.value, ForceIssue);
    return Ok(SetFeedback(VerdictOf(issues)));
  }

  /** After the planner, the tag-count and word-count rules never fire. */
  lemma PlannedProposalPassesCounts(reply: string, parse: Parser, blank: bool, forceIssue: bool)
    ensures var p := ProposalFromReply(reply, parse);
            forall m <- IssueList(p, blank, forceIssue) ::
              m == BlankMessage || m == EmptyMessage || m == ForcedIssue
  {
  }

  // ---------------------------------------------------------------------
  // Running the graph
  // ---------------------------------------------------------------------

  datatype NodeName = Supervisor | Planner | Reviewer

  /** How a run of the compiled graph ends: the final merged state and the
      nodes executed, or the exception that node failed with after the
      nodes of the trace completed. */
  datatype RunOutcome =
    | Finished(final: AgentState, trace: seq<NodeName>)
    | Crashed(trace: seq<NodeName>, failed: NodeName, error: string)

  function Prepend(t: seq<NodeName>, o: RunOutcome): (r: RunOutcome)
    ensures r.Finished? <==> o.Finished?
    ensures r.trace == t + o.trace
    ensures r.Finished? ==> r.final == o.final
    ensures r.Crashed? ==> r.failed == o.failed && r.error == o.error
  {
    match o
    case Finished(f, trace) => Finished(f, t + trace)
    case Crashed(trace, n, e) => Crashed(t + trace, n, e)
  }

  lemma PrependTwice(a: seq<NodeName>, b: seq<NodeName>, o: RunOutcome)
    ensures Prepend(a, Prepend(b, o)) == Prepend(a + b, o)
  {
    assert a + (b + o.trace) == (a + b) + o.trace;
  }

  /** The graph from its entry point in state s, with the functions
      registered for the planner and the reviewer stage: the supervisor,
      the router's choice, the chosen stage and back to the supervisor. */
  function Run(s: AgentState, plan: AgentState -> Proposal, review: AgentState -> Result<Verdict>): (r: RunOutcome)
    ensures r.Finished? ==> RouterLogic(r.final) == ToEnd
    ensures r.Crashed? ==> r.failed == Reviewer
    decreases MaxTurns - s.turnCount
  {
    var s1 := Merge(s, SupervisorNode(s));
    match RouterLogic(s1)
    case ToEnd => Finished(s1, [Supervisor])
    case ToPlanner => Prepend([Supervisor, Planner], Run(Merge(s1, SetProposal(plan(s1))), plan, review))
    case ToReviewer =>
      match review(s1)
      case Raised(e) => Crashed([Supervisor], Reviewer, e)
      case Ok(v) => Prepend([Supervisor, Reviewer], Run(Merge(s1, SetFeedback(v)), plan, review))
  }

  /** One round of the graph: the four ways the round after the
      supervisor can go. */
  lemma RunStep(s: AgentState, plan: AgentState -> Proposal, review: AgentState -> Result<Verdict>)
    ensures var s1 := Merge(s, SupervisorNode(s));
            (RouterLogic(s1) == ToEnd ==> Run(s, plan, review) == Finished(s1, [Supervisor])) &&
            (RouterLogic(s1) == ToPlanner ==>
               Run(s, plan, review) == Prepend([Supervisor, Planner], Run(Merge(s1, SetProposal(plan(s1))), plan, review))) &&
            (RouterLogic(s1) == ToReviewer && review(s1).Raised? ==>
               Run(s, plan, review) == Crashed([Supervisor], Reviewer, review(s1).error)) &&
            (RouterLogic(s1) == ToReviewer && review(s1).Ok? ==>
               Run(s, plan, review) == Prepend([Supervisor, Reviewer], Run(Merge(s1, SetFeedback(review(s1).value)), plan, review)))
  {
  }

  /** The planner stage for a given model and parser. */
  function PlanStage(llm: string -> string, parse: Parser): AgentState -> Proposal {
    (st: AgentState) => PlannerProposal(st, llm, parse)
  }

  /** The reviewer stage, with `force_issue` set. */
  function ReviewStage(): AgentState -> Result<Verdict> {
    (st: AgentState) => Review(st.proposal, ForceIssue)
  }

  /** The compiled graph of `create_agent_graph`, run from state s. */
  function RunGraph(s: AgentState, llm: string -> string, parse: Parser): (r: RunOutcome)
    ensures r.Finished? ==> RouterLogic(r.final) == ToEnd
    ensures r.Crashed? ==> r.failed == Reviewer
  {
    Run(s, PlanStage(llm, parse), ReviewStage())
  }

  /** The stream loop of `main`: each node's delta is merged into the state
      as it completes. */
  method Execute(init: AgentState, llm: string -> string, parse: Parser) returns (outcome: RunOutcome)
    ensures outcome == RunGraph(init, llm, parse)
  {
    ghost var plan := PlanStage(llm, parse);
    ghost var review := ReviewStage();
    var state := init;
    var trace: seq<NodeName> := [];
    while true
      invariant RunGraph(init, llm, parse) == Prepend(trace, Run(state, plan, review))
      decreases MaxTurns - state.turnCount
    {
      ghost var before := state;
      RunStep(state, plan, review);
      var u := SupervisorNode(state);
      state := Merge(state, u);
      assert state.turnCount == before.turnCount + 1;
      var route := RouterLogic(state);
      if route == ToEnd {
        return Finished(state, trace + [Supervisor]);
      }
      if route == ToPlanner {
        u := PlannerNode(state, llm, parse);
        assert u == SetProposal(plan(state));
        PrependTwice(trace, [Supervisor, Planner], Run(Merge(state, u), plan, review));
        assert Merge(state, u).turnCount == state.turnCount;
        state := Merge(state, u);
        trace := trace + [Supervisor, Planner];
      } else {
        var reviewed := ReviewerNode(state);
        assert review(state) == Review(state.proposal, ForceIssue);
        if reviewed.Raised? {
          return Crashed(trace + [Supervisor], Reviewer, reviewed.error);
        }
        PrependTwice(trace, [Supervisor, Reviewer], Run(Merge(state, reviewed.value), plan, review));
        assert Merge(state, reviewed.value).turnCount == state.turnCount;
        state := Merge(state, reviewed.value);
        trace := trace + [Supervisor, Reviewer];
      }
    }
  }

  /** The supervisor runs at the even positions, a stage at the odd ones,
      and the supervisor runs last. */
  predicate Alternating(t: seq<NodeName>) {
    |t| % 2 == 1 && forall i :: 0 <= i < |t| ==> (t[i] == Supervisor <==> i % 2 == 0)
  }

  lemma AlternatingCons(stage: NodeName, t: seq<NodeName>)
    requires stage != Supervisor && Alternating(t)
    ensures Alternating([Supervisor, stage] + t)
  {
    var r := [Supervisor, stage] + t;
    forall i | 0 <= i < |r| ensures (r[i] == Supervisor <==> i % 2 == 0) {
      if i >= 2 {
        assert r[i] == t[i - 2];
      }
    }
  }

  /** A finished run alternates supervisor and stage, ends on a router END,
      leaves the inputs alone, and the supervisor visits are exactly the
      increments of the counter, so it stops by turn 5 when it starts
      below it. Only the reviewer can fail. */
  lemma {:induction false} RunShape(s: AgentState, plan: AgentState -> Proposal, review: AgentState -> Result<Verdict>)
    ensures var o := Run(s, plan, review);
            o.Finished? ==>
              Alternating(o.trace) && RouterLogic(o.final) == ToEnd &&
              o.final.title == s.title && o.final.content == s.content && o.final.task == s.task &&
              2 * (o.final.turnCount - s.turnCount) == |o.trace| + 1 &&
              o.final.turnCount <= if s.turnCount < MaxTurns then MaxTurns else s.turnCount + 1
    ensures var o := Run(s, plan, review);
            o.Crashed? ==> o.failed == Reviewer && Alternating(o.trace)
    decreases MaxTurns - s.turnCount
  {
    var s1 := Merge(s, SupervisorNode(s));
    match RouterLogic(s1)
    case ToEnd =>
    case ToPlanner =>
      var s2 := Merge(s1, SetProposal(plan(s1)));
      RunShape(s2, plan, review);
      AlternatingCons(Planner, Run(s2, plan, review).trace);
    case ToReviewer =>
      match review(s1)
      case Raised(e) =>
      case Ok(v) =>
        var s2 := Merge(s1, SetFeedback(v));
        RunShape(s2, plan, review);
        AlternatingCons(Reviewer, Run(s2, plan, review).trace);
  }

  /** A stage runs only at the odd positions of the trace, so a finished run
      from turn 0 or later executes at most 4 stages. */
  lemma StagesBound(s: AgentState, plan: AgentState -> Proposal, review: AgentState -> Result<Verdict>)
    requires 0 <= s.turnCount
    ensures Run(s, plan, review).Finished? ==> |Run(s, plan, review).trace| <= 2 * MaxTurns - 1
  {
    RunShape(s, plan, review);
  }

  // ---------------------------------------------------------------------
  // The demo run and its publish record
  // ---------------------------------------------------------------------

  const Task := "Generate exactly 3 topical tags and a \U{2264}25-word summary"

  /** `initial_state` of `main`, for the given blog post. */
  function InitialState(title: string, content: string): (s: AgentState)
    ensures s.proposal.None? && s.feedback.None? && s.turnCount == 0
  {
    AgentState(title, content, Task, None, None, 0)
  }

  /** `review_status` of the publish record. */
  function ReviewStatus(feedback: Option<Verdict>): (status: string)
    ensures status == "approved" <==> feedback.None? || !feedback.value.hasIssues
    ensures status == "approved" || status == "needs_revision"
  {
    if feedback.Some? && feedback.value.hasIssues then "needs_revision" else "approved"
  }

  /** The final publish JSON `main` prints. */
  function PublishRecord(f: AgentState): (r: Record)
    ensures r.Keys == {"title", "tags", "summary", "metadata"}
    ensures r["title"] == Str(f.title)
    ensures f.proposal.Some? ==> r["tags"] == Arr(f.proposal.value.tags) && r["summary"] == Str(f.proposal.value.summary)
    ensures f.proposal.None? ==> r["tags"] == Arr([]) && r["summary"] == Str("")
    ensures r["metadata"] == Obj(map["total_turns" := Num(f.turnCount), "review_status" := Str(ReviewStatus(f.feedback))])
  {
    map[
      "title" := Str(f.title),
      "tags" := Arr(if f.proposal.Some? then f.proposal.value.tags else []),
      "summary" := Str(if f.proposal.Some? then f.proposal.value.summary else ""),
      "metadata" := Obj(map["total_turns" := Num(f.turnCount), "review_status" := Str(ReviewStatus(f.feedback))])
    ]
  }

  const S := Supervisor
  const P := Planner
  const R := Reviewer

  /** The run from an empty state is fixed whenever every verdict the
      reviewer reaches has issues: supervisor, planner, supervisor,
      reviewer, supervisor, planner, supervisor, planner, supervisor, END -
      unless the reviewer fails right after the first proposal. */
  lemma {:induction false} FixedTrace(s0: AgentState, plan: AgentState -> Proposal, review: AgentState -> Result<Verdict>)
    requires s0.proposal.None? && s0.feedback.None? && s0.turnCount == 0
    requires forall st :: review(st).Ok? ==> review(st).value.hasIssues
    ensures var o := Run(s0, plan, review);
            (o.Finished? && o.trace == [S, P, S, R, S, P, S, P, S] &&
             o.final.turnCount == 5 && o.final.feedback.Some? && o.final.feedback.value.hasIssues &&
             exists st :: o.final.proposal == Some(plan(st))) ||
            (o.Crashed? && o.trace == [S, P, S] && o.failed == Reviewer)
  {
    var a1 := Merge(s0, SupervisorNode(s0));
    var b1 := Merge(a1, SetProposal(plan(a1)));
    var a2 := Merge(b1, SupervisorNode(b1));
    assert Run(s0, plan, review) == Prepend([S, P], Run(b1, plan, review));
    match review(a2)
    case Raised(e) =>
      assert Run(b1, plan, review) == Crashed([S], R, e);
    case Ok(v) =>
      var b2 := Merge(a2, SetFeedback(v));
      var a3 := Merge(b2, SupervisorNode(b2));
      var b3 := Merge(a3, SetProposal(plan(a3)));
      var a4 := Merge(b3, SupervisorNode(b3));
      var b4 := Merge(a4, SetProposal(plan(a4)));
      var a5 := Merge(b4, SupervisorNode(b4));
      assert Run(b4, plan, review) == Finished(a5, [S]);
      assert Run(b3, plan, review) == Prepend([S, P], Finished(a5, [S]));
      assert Run(b2, plan, review) == Prepend([S, P], Prepend([S, P], Finished(a5, [S])));
      assert Run(b1, plan, review) == Prepend([S, R], Prepend([S, P], Prepend([S, P], Finished(a5, [S]))));
      assert a5.proposal == Some(plan(a4));
  }

  /** The run of `main` from its initial state, whatever the model replies:
      the fixed trace, the reviewer run once, 5 turns, status
      "needs_revision" and a final proposal of 3 tags and at most 25 words -
      unless the reviewer's strip scan raises on a non-string tag. */
  /** The record the demo publishes after a finished run: 5 turns, status
      "needs_revision" and 3 tags. */
  lemma DemoPublish(title: string, content: string, llm: string -> string, parse: Parser)
    requires RunGraph(InitialState(title, content), llm, parse).Finished?
    ensures var r := PublishRecord(RunGraph(InitialState(title, content), llm, parse).final);
            r["title"] == Str(title) &&
            r["metadata"] == Obj(map["total_turns" := Num(5), "review_status" := Str("needs_revision")]) &&
            r["tags"].Arr? && |r["tags"].items| == 3
  {
    DemoRun(title, content, llm, parse);
    var o := RunGraph(InitialState(title, content), llm, parse);
    RunShape(InitialState(title, content), PlanStage(llm, parse), ReviewStage());
  }

  lemma DemoRun(title: string, content: string, llm: string -> string, parse: Parser)
    ensures var o := RunGraph(InitialState(title, content), llm, parse);
            (o.Finished? && o.trace == [S, P, S, R, S, P, S, P, S] &&
             o.final.turnCount == 5 && ReviewStatus(o.final.feedback) == "needs_revision" &&
             o.final.proposal.Some? &&
             |o.final.proposal.value.tags| == 3 && |Words(o.final.proposal.value.summary)| <= 25) ||
            (o.Crashed? && o.trace == [S, P, S] && o.failed == Reviewer)
  {
    var plan := PlanStage(llm, parse);
    var review := ReviewStage();
    forall st ensures review(st).Ok? ==> review(st).value.hasIssues {
      if review(st).Ok? {
        ReviewAlwaysFlags(st.proposal);
      }
    }
    FixedTrace(InitialState(title, content), plan, review);
    var o := Run(InitialState(title, content), plan, review);
    if o.Finished? {
      var st :| o.final.proposal == Some(plan(st));
      PlannerShape(llm(PlannerPrompt(st)), parse);
    }
  }
}
