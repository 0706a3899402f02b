/** The three-strategy recovery of a JSON object from model text used by
    the planner of the LangGraph agent (`extract_json_from_text` in
    Assignment2-Langhgraph_Agents/Part3/agent_demo.py). */
module GraphExtract {
  import opened Values
  import opened Seqs
  import opened Text

  const Fence := "```"

  const ExtractErrorPrefix := "Could not parse JSON from LLM output:\n"

  // ---------------------------------------------------------------------
  // Strategy 1: fenced blocks
  // ---------------------------------------------------------------------

  /** What strategy 1 tries to parse out of one piece between fences: the
      text after the first line when the piece has several lines (the
      language tag line is dropped), stripped. */
  function FenceCandidate(part: string): (c: string)
    ensures |c| <= |part|
    ensures IsStripped(c)
    ensures '\n' !in part ==> c == Strip(part)
  {
    Strip(if '\n' in part then AfterFirst(part, '\n') else part)
  }

  /** Candidates that strategy 1 accepts: they start with `{` and parse. */
  predicate Accepted(c: string, parse: Parser) {
    c != [] && c[0] == '{' && parse(c).Some?
  }

  /** The candidate of every piece, in order. */
  function FenceCandidates(parts: seq<string>): (cs: seq<string>)
    ensures |cs| == |parts|
    ensures forall k :: 0 <= k < |parts| ==> cs[k] == FenceCandidate(parts[k])
  {
    seq(|parts|, k requires 0 <= k < |parts| => FenceCandidate(parts[k]))
  }

  /** The object of the first accepted candidate, in order. */
  function FirstAccepted(cs: seq<string>, parse: Parser): Option<Record> {
    if cs == [] then None
    else if Accepted(cs[0], parse) then parse(cs[0])
    else FirstAccepted(cs[1..], parse)
  }

  /** Strategy 1 succeeds exactly when some candidate is accepted, and then
      yields the object of the first accepted one. */
  lemma {:induction false} FirstAcceptedIsFirst(cs: seq<string>, parse: Parser)
    ensures FirstAccepted(cs, parse).None? <==> forall k :: 0 <= k < |cs| ==> !Accepted(cs[k], parse)
    ensures forall k :: (0 <= k < |cs| && Accepted(cs[k], parse) &&
                         forall m :: 0 <= m < k ==> !Accepted(cs[m], parse)) ==>
                         FirstAccepted(cs, parse) == parse(cs[k])
  {
    if cs != [] && !Accepted(cs[0], parse) {
      FirstAcceptedIsFirst(cs[1..], parse);
      assert forall k :: 1 <= k < |cs| ==> cs[k] == cs[1..][k - 1];
    }
  }

  /** Strategy 1 on the stripped text t: the pieces after the first fence. */
  function FencedStrategy(t: string, parse: Parser): (r: Option<Record>)
    ensures r.Some? ==> ContainsSub(t, Fence)
  {
    if ContainsSub(t, Fence) then FirstAccepted(FenceCandidates(SplitOn(t, Fence)[1..]), parse) else None
  }

  // ---------------------------------------------------------------------
  // Strategy 2: first `{` to last `}`
  // ---------------------------------------------------------------------

  /** The span is only handed to the parser when some `{` comes before
      some `}`. */
  function BraceStrategy(t: string, parse: Parser): (r: Option<Record>)
    ensures (forall i, j :: 0 <= i < j < |t| && t[i] == '{' ==> t[j] != '}') ==> r == None
  {
    var start := Find(t, '{');
    var end := RFind(t, '}');
    if start != -1 && end != -1 && end > start then parse(t[start..end + 1]) else None
  }

  /** Otherwise the parser sees exactly the span from the first `{` to the
      last `}`. */
  lemma BraceStrategySpan(t: string, parse: Parser, i: nat, j: nat)
    requires i < j < |t| && t[i] == '{' && t[j] == '}'
    requires '{' !in t[..i] && '}' !in t[j + 1..]
    ensures BraceStrategy(t, parse) == parse(t[i..j + 1])
  {
    FindIsFirst(t, '{', i);
    RFindIsLast(t, '}', j);
  }

  // ---------------------------------------------------------------------
  // Strategy 3: the two regular expressions
  // ---------------------------------------------------------------------

  /** Group 1 of `\[([^\]]+)\]` matched at position i. */
  function BracketGroupAt(t: string, i: nat): (g: Option<string>)
    requires i < |t|
    ensures g.Some? ==> g.value != [] && ']' !in g.value
  {
    if t[i] != '[' then None
    else
      var j := Find(t[i + 1..], ']');
      if j <= 0 then None else Some(t[i + 1..][..j])
  }

  /** Group 1 of the leftmost match of `\[([^\]]+)\]` at or after from. */
  function FirstBracketGroup(t: string, from: nat): (g: Option<string>)
    ensures g.Some? ==> g.value != [] && ']' !in g.value
    decreases |t| - from
  {
    if from >= |t| then None
    else
      var g := BracketGroupAt(t, from);
      if g.Some? then g else FirstBracketGroup(t, from + 1)
  }

  /** The separator class `["\s:]` and the value class `[^"}\]]`. */
  const SeparatorChars: set<char> := Whitespace + {'"', ':'}

  predicate IsValueChar(c: char) {
    c != '"' && c != '}' && c != ']'
  }

  /** The length of the longest prefix of s inside the separator class. */
  function SeparatorRun(s: string): (n: nat)
    ensures n <= |s|
  {
    if s != [] && s[0] in SeparatorChars then 1 + SeparatorRun(s[1..]) else 0
  }

  /** The longest prefix of s inside the value class. */
  function ValueRun(s: string): (v: string)
    ensures v <= s
    ensures forall c <- v :: IsValueChar(c)
  {
    if s != [] && IsValueChar(s[0]) then [s[0]] + ValueRun(s[1..]) else []
  }

  /** The value group after "summary" when the separator run takes the first
      m characters of rest and backtracks one character at a time. */
  function ValueAfter(rest: string, m: nat): (g: Option<string>)
    requires m <= |rest|
    ensures g.Some? ==> g.value != [] && '"' !in g.value
    decreases m
  {
    if m == 0 then None
    else
      var v := ValueRun(rest[m..]);
      if v != [] then Some(v) else ValueAfter(rest, m - 1)
  }

  /** Group 1 of `summary["\s:]+([^"}\]]+)` (case-insensitive) matched at i. */
  function SummaryGroupAt(t: string, i: nat): (g: Option<string>)
    ensures g.Some? ==> g.value != [] && '"' !in g.value
  {
    if i + 7 > |t| || Lower(t[i..i + 7]) != "summary" then None
    else
      var rest := t[i + 7..];
      ValueAfter(rest, SeparatorRun(rest))
  }

  /** The leftmost such match at or after from. */
  function FirstSummaryGroup(t: string, from: nat): (g: Option<string>)
    ensures g.Some? ==> g.value != [] && '"' !in g.value
    decreases |t| - from
  {
    if from >= |t| then None
    else
      var g := SummaryGroupAt(t, from);
      if g.Some? then g else FirstSummaryGroup(t, from + 1)
  }

  /** `x.strip().strip('"').strip("'")`. */
  function CleanEntry(x: string): (e: string)
    ensures |e| <= |x|
    ensures e == [] || (e[0] != '\'' && e[|e| - 1] != '\'')
  {
    StripChar(StripChar(Strip(x), '"'), '\'')
  }

  predicate NonEmptyText(e: string) {
    e != ""
  }

  /** `[t for t in tags if t][:3]`. */
  function FirstThreeNonEmpty(xs: seq<string>): (tags: seq<string>)
    ensures |tags| <= 3
    ensures forall tag <- tags :: tag != ""
    ensures tags <= Keep(xs, NonEmptyText)
    ensures |tags| == Min(3, |Keep(xs, NonEmptyText)|)
  {
    var nonEmpty := Keep(xs, NonEmptyText);
    var n := Min(3, |nonEmpty|);
    assert forall k :: 0 <= k < n ==> nonEmpty[..n][k] in nonEmpty;
    nonEmpty[..n]
  }

  /** The tag list strategy 3 recovers from the bracketed group: the
      comma-separated entries, cleaned, without the empty ones, at most three. */
  function LooseTags(raw: string): (tags: seq<string>)
    ensures |tags| <= 3
    ensures forall tag <- tags :: tag != ""
  {
    var entries := SplitOn(raw, ",");
    FirstThreeNonEmpty(seq(|entries|, k requires 0 <= k < |entries| => CleanEntry(entries[k])))
  }

  /** The tags of strategy 3: from the first bracketed group, or none. */
  function LooseTagsIn(t: string): (tags: seq<string>)
    ensures |tags| <= 3
    ensures forall tag <- tags :: tag != ""
    ensures FirstBracketGroup(t, 0).None? ==> tags == []
  {
    var g := FirstBracketGroup(t, 0);
    if g.Some? then LooseTags(g.value) else []
  }

  /** The summary of strategy 3: the first summary group, cleaned, or "". */
  function LooseSummaryIn(t: string): (summary: string)
    ensures FirstSummaryGroup(t, 0).None? ==> summary == ""
  {
    var g := FirstSummaryGroup(t, 0);
    if g.Some? then CleanEntry(g.value) else ""
  }

  /** Strategy 3: both regular expressions must yield something. */
  function LooseStrategy(t: string): (r: Option<Record>)
    ensures r.Some? ==> r.value.Keys == {"tags", "summary"}
  {
    var tags := LooseTagsIn(t);
    var summary := LooseSummaryIn(t);
    if tags != [] && summary != "" then
      Some(map["tags" := Arr(StrItems(tags)), "summary" := Str(summary)])
    else None
  }

  /** Strategy 3 succeeds only with a non-empty tag list and a non-empty
      summary, and then yields exactly those two keys: one to three
      non-empty string tags and a non-empty string summary. */
  lemma LooseStrategyShape(t: string)
    ensures LooseStrategy(t).Some? <==> LooseTagsIn(t) != [] && LooseSummaryIn(t) != ""
    ensures FirstBracketGroup(t, 0).None? || FirstSummaryGroup(t, 0).None? ==> LooseStrategy(t).None?
    ensures LooseStrategy(t).Some? ==>
              var r := LooseStrategy(t).value;
              r.Keys == {"tags", "summary"} &&
              r["tags"].Arr? && 1 <= |r["tags"].items| <= 3 &&
              (forall i :: 0 <= i < |r["tags"].items| ==> r["tags"].items[i].Str? && r["tags"].items[i].s != "") &&
              r["summary"].Str? && r["summary"].s != ""
  {
    var tags := LooseTagsIn(t);
    if LooseStrategy(t).Some? {
      var r := LooseStrategy(t).value;
      assert r == map["tags" := Arr(StrItems(tags)), "summary" := Str(LooseSummaryIn(t))];
      assert r["tags"].items == StrItems(tags);
      assert forall i :: 0 <= i < |tags| ==> tags[i] in tags;
    }
  }

  // ---------------------------------------------------------------------
  // The whole extractor
  // ---------------------------------------------------------------------

  /** `extract_json_from_text`: the strategies in order on the stripped text;
      when all fail, the ValueError carrying that text. */
  function Extract(text: string, parse: Parser): (r: Result<Record>)
    ensures r.Raised? ==> r.error == ExtractErrorPrefix + Strip(text)
    ensures FencedStrategy(Strip(text), parse).Some? ==> r == Ok(FencedStrategy(Strip(text), parse).value)
    ensures FencedStrategy(Strip(text), parse).None? && BraceStrategy(Strip(text), parse).Some? ==>
              r == Ok(BraceStrategy(Strip(text), parse).value)
    ensures (FencedStrategy(Strip(text), parse).None? && BraceStrategy(Strip(text), parse).None? &&
             LooseStrategy(Strip(text)).Some?) ==> r == Ok(LooseStrategy(Strip(text)).value)
    ensures r.Raised? <==> FencedStrategy(Strip(text), parse).None? && BraceStrategy(Strip(text), parse).None? &&
                           LooseStrategy(Strip(text)).None?
  {
    var t := Strip(text);
    var s1 := FencedStrategy(t, parse);
    if s1.Some? then Ok(s1.value)
    else
      var s2 := BraceStrategy(t, parse);
      if s2.Some? then Ok(s2.value)
      else
        var s3 := LooseStrategy(t);
        if s3.Some? then Ok(s3.value)
        else Raised(ExtractErrorPrefix + t)
  }

  /** The `for part in parts[1:]` loop of strategy 1: the first candidate
      that starts with `{` and parses, one piece at a time. */
  method ScanFenced(parts: seq<string>, parse: Parser) returns (r: Option<Record>)
    requires |parts| >= 1
    ensures r == FirstAccepted(FenceCandidates(parts[1..]), parse)
  {
    ghost var cs := FenceCandidates(parts[1..]);
    var k := 1;
    while k < |parts|
      invariant 1 <= k <= |parts|
      invariant FirstAccepted(cs, parse) == FirstAccepted(cs[k - 1..], parse)
    {
      assert cs[k - 1..][1..] == cs[k..];
      var candidate := FenceCandidate(parts[k]);
      assert candidate == cs[k - 1];
      if candidate != [] && candidate[0] == '{' {
        var parsed := parse(candidate);
        if parsed.Some? {
          return parsed;
        }
      }
      k := k + 1;
    }
    return None;
  }

  /** The source's loop over the fenced pieces, with its early returns. */
  method ExtractJson(text: string, parse: Parser) returns (r: Result<Record>)
    ensures r == Extract(text, parse)
  {
    var t := Strip(text);
    if ContainsSub(t, Fence) {
      var fenced := ScanFenced(SplitOn(t, Fence), parse);
      if fenced.Some? {
        return Ok(fenced.value);
      }
    }
    var braced := BraceStrategy(t, parse);
    if braced.Some? {
      return Ok(braced.value);
    }
    var loose := LooseStrategy(t);
    if loose.Some? {
      return Ok(loose.value);
    }
    return Raised(ExtractErrorPrefix + t);
  }

  // ---------------------------------------------------------------------
  // Round trips
  // ---------------------------------------------------------------------

  /** A serialized object: starts with `{`, ends with `}`, no back-quote. */
  predicate IsObjectText(j: string) {
    |j| >= 2 && j[0] == '{' && j[|j| - 1] == '}' && '`' !in j
  }

  /** `strip()` of text around a core that starts and ends with a
      non-space character removes only the outer whitespace. */
  lemma StripAround(pre: string, j: string, post: string)
    requires j != [] && !IsSpace(j[0]) && !IsSpace(j[|j| - 1])
    ensures Strip(pre + j + post) == TrimStartWhile(pre, Whitespace) + j + TrimEndWhile(post, Whitespace)
  {
    var p1 := TrimStartWhile(pre, Whitespace);
    TrimStartAround(pre, j, post);
    TrimEndAround(p1 + j, post);
  }

  lemma TrimStartAround(pre: string, j: string, post: string)
    requires j != [] && !IsSpace(j[0])
    ensures TrimStartWhile(pre + j + post, Whitespace) == TrimStartWhile(pre, Whitespace) + j + post
  {
    assert pre + j + post == pre + (j + post);
    TrimStartAppend(pre, j + post);
    assert TrimStartWhile(pre, Whitespace) + (j + post) == TrimStartWhile(pre, Whitespace) + j + post;
  }

  lemma TrimEndAround(x: string, post: string)
    requires x != [] && !IsSpace(x[|x| - 1])
    ensures TrimEndWhile(x + post, Whitespace) == x + TrimEndWhile(post, Whitespace)
  {
    TrimEndPrepend(x, post);
  }

  /** The brace-span strategy on prose around an object: the parser sees
      the object. */
  lemma BraceStrategyAround(p: string, j: string, q: string, parse: Parser)
    requires IsObjectText(j) && '{' !in p && '}' !in q
    ensures BraceStrategy(p + j + q, parse) == parse(j)
  {
    var t := p + j + q;
    var i := |p|;
    var e := |p| + |j| - 1;
    assert t[i] == j[0];
    assert t[e] == j[|j| - 1];
    assert t[..i] == p;
    assert t[e + 1..] == q;
    assert t[i..e + 1] == j;
    BraceStrategySpan(t, parse, i, e);
  }

  /** Strict JSON, or JSON embedded in prose that has no `{` before it, no
      `}` after it and no fence, is recovered by the brace-span strategy. */
  lemma ExtractEmbedded(pre: string, j: string, post: string, parse: Parser)
    requires IsObjectText(j) && parse(j).Some?
    requires '{' !in pre && '`' !in pre
    requires '}' !in post && '`' !in post
    ensures Extract(pre + j + post, parse) == Ok(parse(j).value)
  {
    StripAround(pre, j, post);
    var p1 := TrimStartWhile(pre, Whitespace);
    var q1 := TrimEndWhile(post, Whitespace);
    var t := p1 + j + q1;
    TrimStartIsSuffix(pre, Whitespace);
    TrimEndIsPrefix(post, Whitespace);
    assert '`' !in t;
    NotContainsSub(t, Fence);
    assert FencedStrategy(t, parse) == None;
    BraceStrategyAround(p1, j, q1, parse);
  }

  /** Text with exactly two fences, at its ends, splits into an empty
      piece, the body and an empty piece. */
  lemma SplitBetweenFences(body: string)
    requires '`' !in body
    ensures SplitOn(Fence + body + Fence, Fence) == ["", body, ""]
  {
    assert Fence + body + Fence == Fence + (body + Fence);
    SplitFromSep(body + Fence, Fence, "");
    SplitFromSkip(body, Fence, Fence, "");
    assert "" + body == body;
    assert Fence == Fence + "";
    SplitFromSep("", Fence, body);
  }

  /** The candidate of a piece made of a language tag line and the object
      followed by a newline is the object. */
  lemma CandidateAfterTagLine(lang: string, j: string)
    requires IsObjectText(j) && '\n' !in lang
    ensures FenceCandidate(lang + "\n" + j + "\n") == j
  {
    var body := lang + "\n" + j + "\n";
    assert body[|lang|] == '\n';
    assert body[..|lang|] == lang;
    FindIsFirst(body, '\n', |lang|);
    assert AfterFirst(body, '\n') == j + "\n";
    StripAround("", j, "\n");
    assert TrimEndWhile("\n", Whitespace) == "";
    assert "" + j + "\n" == j + "\n";
    assert TrimStartWhile("", Whitespace) + j + "" == j;
  }

  /** A fenced block with a language tag line is recovered by strategy 1. */
  lemma ExtractFenced(lang: string, j: string, parse: Parser)
    requires IsObjectText(j) && parse(j).Some?
    requires '\n' !in lang && '`' !in lang
    ensures Extract(Fence + lang + "\n" + j + "\n" + Fence, parse) == Ok(parse(j).value)
  {
    var body := lang + "\n" + j + "\n";
    var text := Fence + body + Fence;
    assert Fence + lang + "\n" + j + "\n" + Fence == text;
    assert text[0] == '`' && text[|text| - 1] == '`';
    StripOfStripped(text);
    assert Fence <= text;
    assert '`' !in body;
    SplitBetweenFences(body);
    CandidateAfterTagLine(lang, j);
    var cs := FenceCandidates(["", body, ""][1..]);
    assert cs[0] == j;
    assert Accepted(cs[0], parse);
  }
}
