/** The three-agent Planner -> Reviewer -> Finalizer workflow of
    Assignment1-AgenticAI/Part2/agents_demo.py: the brace-span JSON
    extractor, tag cleaning, the three-tag finaliser and the composition of
    the agents. The chat endpoint is an oracle from (system prompt, user
    message) to reply text, and `json.loads` / `json.dumps` are passed in. */
module AgentsDemo {
  import opened Values
  import opened Seqs
  import opened Text

  // ---------------------------------------------------------------------
  // extract_json_from_text
  // ---------------------------------------------------------------------

  /** `re.search(r"\{.*\}", text, flags=re.DOTALL)`, stripped and parsed:
      the greedy match runs from the first `{` to the last `}`, and exists
      exactly when that `}` comes after that `{`, so without a `{` that is
      followed somewhere by a `}` there is no match. */
  function ExtractJson(text: string, parse: Parser): (r: Option<Record>)
    ensures (forall i, j :: 0 <= i < j < |text| && text[i] == '{' ==> text[j] != '}') ==> r == None
  {
    var start := Find(text, '{');
    var end := RFind(text, '}');
    if start != -1 && end > start then parse(Strip(text[start..end + 1])) else None
  }

  /** Otherwise the parser sees exactly the span from the first `{` to the
      last `}` (stripping it changes nothing). */
  lemma ExtractSpan(text: string, parse: Parser, i: nat, j: nat)
    requires i < j < |text| && text[i] == '{' && text[j] == '}'
    requires '{' !in text[..i] && '}' !in text[j + 1..]
    ensures ExtractJson(text, parse) == parse(text[i..j + 1])
  {
    FindIsFirst(text, '{', i);
    RFindIsLast(text, '}', j);
    var span := text[i..j + 1];
    assert span[0] == '{' && span[|span| - 1] == '}';
    StripOfStripped(span);
  }

  /** `extract_json_from_text(text) or {}`: None and an empty dict both
      become the empty dict. */
  function OrEmpty(parsed: Option<Record>): (r: Record)
    ensures parsed.None? ==> r == map[]
    ensures parsed.Some? ==> r == parsed.value
  {
    if parsed.Some? then parsed.value else map[]
  }

  // ---------------------------------------------------------------------
  // clean_tags
  // ---------------------------------------------------------------------

  /** The stripped, non-empty string items, in order: what survives the
      type filter and the emptiness check of `clean_tags`. */
  function Candidates(items: seq<Json>): seq<string> {
    if items == [] then [] else CandidateOf(items[0]) + Candidates(items[1..])
  }

  /** The entry one item contributes: its stripped text, when it is a
      string that does not strip to nothing. */
  function CandidateOf(t: Json): (c: seq<string>)
    ensures |c| <= 1
  {
    if t.Str? && Strip(t.s) != "" then [Strip(t.s)] else []
  }

  lemma CandidatesAt(items: seq<Json>, i: nat)
    requires i < |items|
    ensures Candidates(items[i..]) == CandidateOf(items[i]) + Candidates(items[i + 1..])
  {
    assert items[i..][0] == items[i] && items[i..][1..] == items[i + 1..];
  }

  /** Keys that are pairwise distinct. */
  predicate DistinctKeys(r: seq<string>) {
    forall i, j :: 0 <= i < j < |r| ==> Lower(r[i]) != Lower(r[j])
  }

  /** The case-insensitive dedupe that keeps first-seen order: xs without
      the entries whose lower-cased key is in seen or already kept. */
  function DedupeFrom(xs: seq<string>, seen: set<string>): seq<string> {
    if xs == [] then []
    else if Lower(xs[0]) in seen then DedupeFrom(xs[1..], seen)
    else [xs[0]] + DedupeFrom(xs[1..], seen + {Lower(xs[0])})
  }

  lemma DedupeCons(x: string, rest: seq<string>, seen: set<string>)
    ensures DedupeFrom([x] + rest, seen) ==
              if Lower(x) in seen then DedupeFrom(rest, seen) else [x] + DedupeFrom(rest, seen + {Lower(x)})
  {
    assert ([x] + rest)[0] == x && ([x] + rest)[1..] == rest;
  }

  /** What `clean_tags` returns. */
  function Cleaned(tags: Json): (r: seq<string>)
    ensures !tags.Arr? ==> r == []
  {
    if tags.Arr? then DedupeFrom(Candidates(tags.items), {}) else []
  }

  /** `clean_tags`: one pass over the list, growing `seen` and `cleaned`. */
  method CleanTags(tags: Json) returns (cleaned: seq<string>)
    ensures cleaned == Cleaned(tags)
  {
    if !tags.Arr? {
      return [];
    }
    var items := tags.items;
    cleaned := [];
    var seen: set<string> := {};
    var i := 0;
    while i < |items|
      invariant 0 <= i <= |items|
      invariant cleaned + DedupeFrom(Candidates(items[i..]), seen) == Cleaned(tags)
    {
      CandidatesAt(items, i);
      ghost var rest := Candidates(items[i + 1..]);
      var t := items[i];
      i := i + 1;
      if t.Str? {
        var x := Strip(t.s);
        if x != "" {
          DedupeCons(x, rest, seen);
          var key := Lower(x);
          if key !in seen {
            seen := seen + {key};
            assert cleaned + ([x] + DedupeFrom(rest, seen)) == (cleaned + [x]) + DedupeFrom(rest, seen);
            cleaned := cleaned + [x];
          }
        } else {
          assert [] + rest == rest;
        }
      } else {
        assert [] + rest == rest;
      }
    }
    assert items[i..] == [];
    assert cleaned + [] == cleaned;
  }

  /** Every candidate is a stripped, non-empty string item of the input. */
  lemma {:induction false} CandidatesFromInput(items: seq<Json>)
    ensures forall c <- Candidates(items) :: c != "" && Strip(c) == c
    ensures forall c <- Candidates(items) :: exists k :: 0 <= k < |items| && items[k].Str? && Strip(items[k].s) == c
  {
    if items != [] {
      CandidatesFromInput(items[1..]);
      if items[0].Str? {
        StripIdempotent(items[0].s);
      }
      forall c <- Candidates(items[1..])
        ensures exists k :: 0 <= k < |items| && items[k].Str? && Strip(items[k].s) == c
      {
        var k :| 0 <= k < |items[1..]| && items[1..][k].Str? && Strip(items[1..][k].s) == c;
        assert items[k + 1] == items[1..][k];
      }
    }
  }

  /** The dedupe keeps an order-preserving selection of its input. */
  lemma {:induction false} DedupeIsSubsequence(xs: seq<string>, seen: set<string>)
    ensures IsSubsequence(DedupeFrom(xs, seen), xs)
  {
    if xs != [] {
      if Lower(xs[0]) in seen {
        DedupeIsSubsequence(xs[1..], seen);
      } else {
        DedupeIsSubsequence(xs[1..], seen + {Lower(xs[0])});
        var r := DedupeFrom(xs, seen);
        assert r[0] == xs[0] && r[1..] == DedupeFrom(xs[1..], seen + {Lower(xs[0])});
      }
    }
  }

  /** A key new to a distinct list keeps it distinct when put in front. */
  lemma ConsDistinct(x: string, rest: seq<string>)
    requires DistinctKeys(rest) && forall y <- rest :: Lower(y) != Lower(x)
    ensures DistinctKeys([x] + rest)
  {
    var r := [x] + rest;
    forall i, j | 0 <= i < j < |r| ensures Lower(r[i]) != Lower(r[j]) {
      assert r[j] == rest[j - 1] && rest[j - 1] in rest;
      if i > 0 {
        assert r[i] == rest[i - 1];
      }
    }
  }

  /** The keys of the kept entries are pairwise distinct and new. */
  lemma {:induction false} DedupeKeysDistinct(xs: seq<string>, seen: set<string>)
    ensures forall y <- DedupeFrom(xs, seen) :: Lower(y) !in seen && y in xs
    ensures DistinctKeys(DedupeFrom(xs, seen))
  {
    if xs != [] {
      var x := xs[0];
      assert forall y <- xs[1..] :: y in xs;
      if Lower(x) in seen {
        DedupeKeysDistinct(xs[1..], seen);
      } else {
        var seen' := seen + {Lower(x)};
        DedupeKeysDistinct(xs[1..], seen');
        var rest := DedupeFrom(xs[1..], seen');
        assert DedupeFrom(xs, seen) == [x] + rest;
        assert forall y <- rest :: Lower(y) != Lower(x);
        ConsDistinct(x, rest);
      }
    }
  }

  /** Position k holds the first entry of its case-insensitive group, and
      that group is not yet in seen. */
  predicate FirstOfKey(xs: seq<string>, seen: set<string>, k: nat)
    requires k < |xs|
  {
    Lower(xs[k]) !in seen && forall j :: 0 <= j < k ==> Lower(xs[j]) != Lower(xs[k])
  }

  lemma FirstOfKeyShift(xs: seq<string>, seen: set<string>, seen': set<string>, k: nat)
    requires 0 < k < |xs|
    requires seen' == seen || (Lower(xs[0]) !in seen && seen' == seen + {Lower(xs[0])})
    requires seen' == seen ==> Lower(xs[0]) in seen
    ensures FirstOfKey(xs, seen, k) <==> FirstOfKey(xs[1..], seen', k - 1)
  {
    assert forall j :: 0 <= j < k - 1 ==> xs[1..][j] == xs[j + 1];
    if FirstOfKey(xs[1..], seen', k - 1) {
      forall j | 0 <= j < k ensures Lower(xs[j]) != Lower(xs[k]) {
        if j > 0 {
          assert Lower(xs[1..][j - 1]) != Lower(xs[1..][k - 1]);
        }
      }
    }
  }

  /** Exactly the first entry of every new case-insensitive group is kept,
      with its own casing. */
  lemma {:induction false} DedupeKeepsFirsts(xs: seq<string>, seen: set<string>)
    ensures forall k :: 0 <= k < |xs| && FirstOfKey(xs, seen, k) ==> xs[k] in DedupeFrom(xs, seen)
    ensures forall y <- DedupeFrom(xs, seen) :: exists k :: 0 <= k < |xs| && xs[k] == y && FirstOfKey(xs, seen, k)
  {
    if xs != [] {
      var x := xs[0];
      var seen' := if Lower(x) in seen then seen else seen + {Lower(x)};
      DedupeKeepsFirsts(xs[1..], seen');
      var rest := DedupeFrom(xs[1..], seen');
      assert DedupeFrom(xs, seen) == if Lower(x) in seen then rest else [x] + rest;
      forall k | 1 <= k < |xs| ensures FirstOfKey(xs, seen, k) <==> FirstOfKey(xs[1..], seen', k - 1) {
        FirstOfKeyShift(xs, seen, seen', k);
      }
      forall k | 0 <= k < |xs| && FirstOfKey(xs, seen, k) ensures xs[k] in DedupeFrom(xs, seen) {
        if k > 0 {
          assert xs[1..][k - 1] == xs[k];
        }
      }
      forall y <- DedupeFrom(xs, seen) ensures exists k :: 0 <= k < |xs| && xs[k] == y && FirstOfKey(xs, seen, k) {
        if y in rest {
          var k :| 0 <= k < |xs[1..]| && xs[1..][k] == y && FirstOfKey(xs[1..], seen', k);
          assert xs[k + 1] == y && FirstOfKey(xs, seen, k + 1);
        } else {
          assert y == x && FirstOfKey(xs, seen, 0);
        }
      }
    }
  }

  /** Entries with distinct new keys are all kept. */
  lemma {:induction false} DedupeOfDistinct(xs: seq<string>, seen: set<string>)
    requires forall y <- xs :: Lower(y) !in seen
    requires DistinctKeys(xs)
    ensures DedupeFrom(xs, seen) == xs
  {
    if xs != [] {
      var seen' := seen + {Lower(xs[0])};
      assert xs[0] in xs;
      forall y <- xs[1..] ensures Lower(y) !in seen' {
        var j :| 0 <= j < |xs[1..]| && xs[1..][j] == y;
        assert xs[j + 1] == y && y in xs;
      }
      forall i, j | 0 <= i < j < |xs[1..]| ensures Lower(xs[1..][i]) != Lower(xs[1..][j]) {
        assert xs[1..][i] == xs[i + 1] && xs[1..][j] == xs[j + 1];
      }
      DedupeOfDistinct(xs[1..], seen');
      assert xs == [xs[0]] + xs[1..];
    }
  }

  /** Stripped non-empty strings are their own candidates. */
  lemma {:induction false} CandidatesOfClean(r: seq<string>)
    requires forall y <- r :: y != "" && Strip(y) == y
    ensures Candidates(StrItems(r)) == r
  {
    if r != [] {
      assert r[0] in r;
      assert StrItems(r)[1..] == StrItems(r[1..]);
      assert forall y <- r[1..] :: y in r;
      CandidatesOfClean(r[1..]);
      assert r == [r[0]] + r[1..];
    }
  }

  /** What `clean_tags` promises of a list: every output is a stripped,
      non-empty string item of the input, no two agree after lower-casing,
      and the input order is kept. */
  lemma CleanedElements(items: seq<Json>)
    ensures forall y <- Cleaned(Arr(items)) :: y != "" && Strip(y) == y
    ensures forall y <- Cleaned(Arr(items)) ::
              exists k :: 0 <= k < |items| && items[k].Str? && Strip(items[k].s) == y
    ensures DistinctKeys(Cleaned(Arr(items)))
    ensures IsSubsequence(Cleaned(Arr(items)), Candidates(items))
  {
    CandidatesFromInput(items);
    DedupeKeysDistinct(Candidates(items), {});
    DedupeIsSubsequence(Candidates(items), {});
  }

  /** The output holds exactly the first occurrence of each
      case-insensitive group of candidates, with its own casing. */
  lemma CleanedKeepsFirsts(items: seq<Json>)
    ensures var cs := Candidates(items);
            forall k :: 0 <= k < |cs| && FirstOfKey(cs, {}, k) ==> cs[k] in Cleaned(Arr(items))
    ensures var cs := Candidates(items);
            forall y <- Cleaned(Arr(items)) :: exists k :: 0 <= k < |cs| && cs[k] == y && FirstOfKey(cs, {}, k)
  {
    assert Cleaned(Arr(items)) == DedupeFrom(Candidates(items), {});
    DedupeKeepsFirsts(Candidates(items), {});
  }

  /** `clean_tags` is idempotent. */
  lemma CleanedIdempotent(tags: Json)
    ensures Cleaned(Arr(StrItems(Cleaned(tags)))) == Cleaned(tags)
  {
    var r := Cleaned(tags);
    if tags.Arr? {
      CleanedElements(tags.items);
    }
    CandidatesOfClean(r);
    DedupeOfDistinct(r, {});
  }

  // ---------------------------------------------------------------------
  // finalize_output
  // ---------------------------------------------------------------------

  const Filler := "general"

  /** Every tag `finalize_output` produces is non-empty: the cleaned ones
      by `clean_tags`, the padding by the choice of filler. */
  lemma FinalTagsNonEmpty(tags: Json)
    ensures forall item <- StrItems(TruncatePad(Cleaned(tags), 3, Filler)) :: item.Str? && item.s != ""
  {
    var cleaned := Cleaned(tags);
    var padded := TruncatePad(cleaned, 3, Filler);
    if tags.Arr? {
      CleanedElements(tags.items);
    }
    forall k | 0 <= k < |padded| ensures padded[k] != "" {
      if k < Min(3, |cleaned|) {
        assert padded[k] == cleaned[k] && cleaned[k] in cleaned;
      }
    }
    var items := StrItems(padded);
    forall item <- items ensures item.Str? && item.s != "" {
      var k :| 0 <= k < |items| && items[k] == item;
      assert item == Str(padded[k]);
    }
  }

  /** `finalize_output`: the cleaned tags, cut to three or padded to three
      with "general", and the summary passed through as it is. */
  method FinalizeOutput(obj: Record) returns (out: Record)
    ensures out.Keys == {"tags", "summary"}
    ensures out["tags"] == Arr(StrItems(TruncatePad(Cleaned(Get(obj, "tags")), 3, Filler)))
    ensures out["summary"] == Get(obj, "summary")
  {
    var cleaned := CleanTags(Get(obj, "tags"));
    var summary := Get(obj, "summary");
    ghost var target := TruncatePad(cleaned, 3, Filler);
    var tags := cleaned;
    if |tags| > 3 {
      tags := tags[..3];
    }
    while |tags| < 3
      invariant |tags| <= 3
      invariant tags == target[..|tags|]
      decreases 3 - |tags|
    {
      tags := tags + [Filler];
    }
    assert tags == target;
    out := map["tags" := Arr(StrItems(tags)), "summary" := summary];
  }

  /** Exactly 3 tags: the first min(3, n) cleaned tags, then the filler. */
  lemma FinalTagsShape(cleaned: seq<string>)
    ensures var t := TruncatePad(cleaned, 3, Filler);
            |t| == 3 &&
            (forall k :: 0 <= k < Min(3, |cleaned|) ==> t[k] == cleaned[k]) &&
            (forall k :: Min(3, |cleaned|) <= k < 3 ==> t[k] == Filler)
  {
  }

  /** The padding can bring back a case-insensitive duplicate: a single
      tag "General" is finalised to "General", "general", "general". */
  lemma PaddingCanDuplicate()
    ensures Cleaned(Arr([Str("General")])) == ["General"]
    ensures TruncatePad(["General"], 3, Filler) == ["General", "general", "general"]
    ensures Lower("General") == Lower(Filler)
  {
    assert Strip("General") == "General" by {
      StripOfStripped("General");
    }
    CleanedSingle("General");
    assert ["General"][1..] == [];
  }

  /** A single stripped, non-empty tag is kept as it is. */
  lemma CleanedSingle(t: string)
    requires t != "" && Strip(t) == t
    ensures Cleaned(Arr([Str(t)])) == [t]
  {
    assert Candidates([Str(t)]) == [t] by {
      assert [Str(t)][1..] == [];
      assert CandidateOf(Str(t)) == [t];
    }
    assert [t][1..] == [];
    assert DedupeFrom([t], {}) == [t] + DedupeFrom([], {Lower(t)});
  }

  // ---------------------------------------------------------------------
  // The agents and the workflow
  // ---------------------------------------------------------------------

  /** The chat endpoint: (system prompt, user message) to reply text. */
  type Chat = (string, string) -> string

  /** `json.dumps(obj, ensure_ascii=False)`. */
  type Dumps = Record -> string

  /** An agent's reply text and the object recovered from it. */
  datatype AgentReply = AgentReply(text: string, parsed: Record)

  /** The three agents, each with its own system prompt. */
  datatype Role = PlannerRole | ReviewerRole | FinalizerRole

  function SystemPrompt(role: Role): string {
    match role
    case PlannerRole =>
      "You are the Planner agent. Return ONLY valid JSON.\nKeys: tags, summary.\n" +
      "- tags: JSON array of strings (3 candidates allowed)\n- summary: ONE sentence, <= 25 words\n" +
      "No markdown. No extra text."
    case ReviewerRole =>
      "You are the Reviewer. Output ONLY valid JSON with keys tags and summary. " +
      "tags must contain EXACTLY 3 strings. summary must be ONE sentence with <=25 words." +
      "Don't generate any text outside the JSON. If the Planner output has issues, fix them and return corrected JSON. " +
      "Do not return Python code or markdown or any other language code or markup, just JSON."
    case FinalizerRole =>
      "You are the Finalizer agent. Your job is to produce the final, polished output.\n" +
      "Based on the Reviewer's feedback, create the best possible tags and summary.\n\n" +
      "Return ONLY valid JSON with these exact keys:\n" +
      "- tags: array of EXACTLY 3 topical, specific tags (strings)\n" +
      "- summary: ONE sentence, <=25 words, ends with period\n\n" +
      "Make sure tags are:\n" +
      "- Topical and specific to the blog content\n" +
      "- Multi-word phrases when possible (e.g., 'local models' not just 'models')\n" +
      "- Not generic (avoid 'general', 'content', 'information')\n\n" +
      "Make sure summary is:\n" +
      "- Concise and clear\n" +
      "- Captures the main point\n" +
      "- Exactly one sentence\n" +
      "- 25 words or fewer\n\n" +
      "No markdown. No extra text. No code. Just pure JSON."
  }

  /** One agent call: send the prompts, recover the object or `{}`. */
  function Ask(system: string, user: string, chat: Chat, parse: Parser): (r: AgentReply)
    ensures r.text == chat(system, user)
    ensures ExtractJson(r.text, parse).None? ==> r.parsed == map[]
    ensures ExtractJson(r.text, parse).Some? ==> r.parsed == ExtractJson(r.text, parse).value
  {
    var text := chat(system, user);
    AgentReply(text, OrEmpty(ExtractJson(text, parse)))
  }

  /** The user message of `planner_agent`: it carries the title and the
      content. */
  function PlannerMessage(title: string, content: string): (u: string)
    ensures ContainsSub(u, title) && ContainsSub(u, content)
  {
    var head := "TITLE:\n";
    var mid := "\n\nCONTENT:\n";
    var tail := "\n\nProduce candidate topical tags and a one-sentence <=25-word summary.";
    ContainsPieces(head, title, mid, content, tail);
    head + title + mid + content + tail
  }

  /** `planner_agent`: the planner's prompts go to the endpoint and the
      reply's braced object (or `{}`) comes back. */
  function PlannerAgent(title: string, content: string, chat: Chat, parse: Parser): (r: AgentReply)
    ensures r.text == chat(SystemPrompt(PlannerRole), PlannerMessage(title, content))
    ensures r.parsed == OrEmpty(ExtractJson(r.text, parse))
  {
    Ask(SystemPrompt(PlannerRole), PlannerMessage(title, content), chat, parse)
  }

  /** The user message of `reviewer_agent`: it carries the planner's
      object as JSON text. */
  function ReviewerMessage(plannerJson: Record, dumps: Dumps): (u: string)
    ensures ContainsSub(u, dumps(plannerJson))
  {
    ContainsPiece("PLANNER_OUTPUT_JSON:\n", dumps(plannerJson), "\n\nFix any issues and return corrected JSON only.");
    "PLANNER_OUTPUT_JSON:\n" + dumps(plannerJson) + "\n\nFix any issues and return corrected JSON only."
  }

  /** `reviewer_agent`. */
  function ReviewerAgent(plannerJson: Record, chat: Chat, dumps: Dumps, parse: Parser): (r: AgentReply)
    ensures r.text == chat(SystemPrompt(ReviewerRole), ReviewerMessage(plannerJson, dumps))
    ensures r.parsed == OrEmpty(ExtractJson(r.text, parse))
  {
    Ask(SystemPrompt(ReviewerRole), ReviewerMessage(plannerJson, dumps), chat, parse)
  }

  /** The user message of `finalizer_agent`: it carries the reviewer's
      object as JSON text. */
  function FinalizerMessage(reviewerJson: Record, dumps: Dumps): (u: string)
    ensures ContainsSub(u, dumps(reviewerJson))
  {
    var tail := "\n\nProduce the final, polished tags and summary. Use the Reviewer's feedback to make the best possible output.";
    ContainsPiece("REVIEWER_OUTPUT:\n", dumps(reviewerJson), tail);
    "REVIEWER_OUTPUT:\n" + dumps(reviewerJson) + tail
  }

  /** `finalizer_agent`. */
  function FinalizerAgent(reviewerJson: Record, chat: Chat, dumps: Dumps, parse: Parser): (r: AgentReply)
    ensures r.text == chat(SystemPrompt(FinalizerRole), FinalizerMessage(reviewerJson, dumps))
    ensures r.parsed == OrEmpty(ExtractJson(r.text, parse))
  {
    Ask(SystemPrompt(FinalizerRole), FinalizerMessage(reviewerJson, dumps), chat, parse)
  }

  /** `run_agent_workflow` as written: each agent sees the previous
      agent's object, and the finaliser's object is returned as it is:
      `{}` or whatever the finaliser's reply text parses to. */
  function RunAgentWorkflow(title: string, content: string, chat: Chat, dumps: Dumps, parse: Parser): (r: Record)
    ensures var planner := PlannerAgent(title, content, chat, parse);
            var reviewer := ReviewerAgent(planner.parsed, chat, dumps, parse);
            var finalizer := FinalizerAgent(reviewer.parsed, chat, dumps, parse);
            r == OrEmpty(ExtractJson(finalizer.text, parse))
  {
    var planner := PlannerAgent(title, content, chat, parse);
    var reviewer := ReviewerAgent(planner.parsed, chat, dumps, parse);
    FinalizerAgent(reviewer.parsed, chat, dumps, parse).parsed
  }

  /** The workflow returns the finaliser's object unchecked: a finaliser
      reply without a braced span makes it return `{}` - no tags at all,
      let alone three. */
  lemma WorkflowCanReturnEmpty(title: string, content: string, dumps: Dumps, parse: Parser)
    ensures var silent: Chat := (system: string, user: string) => "";
            RunAgentWorkflow(title, content, silent, dumps, parse) == map[]
  {
  }

  /** The workflow with the finaliser's object run through
      `finalize_output`, as its documentation promises: exactly the keys
      tags and summary, and exactly 3 non-empty string tags. */
  method RunAgentWorkflowEnforced(title: string, content: string, chat: Chat, dumps: Dumps, parse: Parser)
    returns (out: Record)
    ensures out.Keys == {"tags", "summary"}
    ensures out["tags"].Arr? && |out["tags"].items| == 3
    ensures forall item <- out["tags"].items :: item.Str? && item.s != ""
    ensures out["tags"] == Arr(StrItems(TruncatePad(Cleaned(Get(RunAgentWorkflow(title, content, chat, dumps, parse), "tags")), 3, Filler)))
    ensures out["summary"] == Get(RunAgentWorkflow(title, content, chat, dumps, parse), "summary")
  {
    var finalObj := RunAgentWorkflow(title, content, chat, dumps, parse);
    out := FinalizeOutput(finalObj);
    FinalTagsNonEmpty(Get(finalObj, "tags"));
  }
}
