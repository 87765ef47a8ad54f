/** The agent graph (graph.py): nodes, routing between them, and whole runs.  The model and the tools are
    adversaries: a run is any sequence of replies, one for each node executed.  A run cut short by an
    exception is a sequence that stops before the end node. */
module AgentGraph {
  import opened AnswerLayout
  import opened Citations
  import opened Text

  // ----- Settings, requests and replies -----

  datatype Settings = Settings(digits: Digits, maxRewrites: nat, maxCitations: nat, maxContext: nat)

  datatype Request = Request(question: string, webSearch: bool)

  datatype Route = Rag | Overview | Navigation

  datatype Decision = Sufficient | Rewrite | Refuse

  datatype Evaluation = Evaluation(decision: Decision, rewriteQuery: string, reason: string)

  datatype Chunk = Chunk(id: string, document: string, section: string, content: string)

  datatype Link = Link(title: string, url: string, snippet: string)

  datatype ToolResponse = ToolResponse(content: string, chunks: seq<Chunk>, complete: bool)

  /** What the model and the tools would say to whatever a node asks them. */
  datatype Reply = Reply(
    route: Route, searchQuery: string, topic: string,
    tool: ToolResponse, web: seq<Link>,
    evaluation: Evaluation, rewritten: string,
    answer: string, verdict: Structure, repaired: string, secondVerdict: Structure)

  datatype Call =
    | AskRoute
    | KnowledgeSearch(query: string) | KnowledgeOverview | DocumentNavigation(topic: string) | WebSearching
    | AskEvidence(context: string, canRewrite: bool)
    | AskRewrite
    | AskAnswer(context: string)
    | AskValidation(candidate: string, context: string)

  // ----- State -----

  datatype Node = RouteNode | RetrieveNode | OverviewNode | NavigationNode | WebNode | EvaluateNode | RewriteNode
                | SynthesizeNode | ValidateNode | RefuseNode | EndNode

  datatype State = State(
    route: Route, searchQuery: string, topic: string, context: string, complete: bool,
    chunks: seq<Chunk>, links: seq<Link>, answer: string, evaluation: Evaluation, rewrites: nat,
    citationCount: nat, answered: bool)

  function InitialState(request: Request): State {
    State(Rag, request.question, request.question, "", false, [], [], "",
          Evaluation(Refuse, "", ""), 0, 0, false)
  }

  function Take<T>(s: seq<T>, n: nat): (r: seq<T>)
    ensures |r| <= n && |r| <= |s| && r == s[..|r|]
  {
    if n < |s| then s[..n] else s
  }

  function Strip(s: string): string {
    Trim(PythonSpace, s)
  }

  // ----- Context of a prompt -----

  function ChunkText(index: nat, chunk: Chunk): string {
    Cite(Knowledge, index) + " 文档：" + chunk.document
    + "\n章节：" + (if chunk.section == "" then "无" else chunk.section) + "\n内容：" + chunk.content
  }

  function LinkText(index: nat, link: Link): string {
    Cite(External, index) + " " + link.title + "\n网址：" + link.url + "\n摘要：" + link.snippet
  }

  function Paragraphs(parts: seq<string>): string {
    if parts == [] then ""
    else if |parts| == 1 then parts[0]
    else Paragraphs(parts[..|parts| - 1]) + "\n\n" + parts[|parts| - 1]
  }

  function ChunkTexts(chunks: seq<Chunk>): (texts: seq<string>)
    ensures |texts| == |chunks|
  {
    seq(|chunks|, i requires 0 <= i < |chunks| => ChunkText(i + 1, chunks[i]))
  }

  function LinkTexts(links: seq<Link>): (texts: seq<string>)
    ensures |texts| == |links|
  {
    seq(|links|, i requires 0 <= i < |links| => LinkText(i + 1, links[i]))
  }

  function Sections(content: string, chunks: seq<Chunk>, links: seq<Link>): seq<string> {
    (if Strip(content) != "" then [Strip(content)] else [])
    + (if chunks == [] then [] else [Paragraphs(ChunkTexts(chunks))])
    + (if links == [] then [] else [Paragraphs(LinkTexts(links))])
  }

  function FormatContext(content: string, chunks: seq<Chunk>, links: seq<Link>, limit: nat): string {
    Strip(Take(Paragraphs(Sections(content, chunks, links)), limit))
  }

  predicate PartAt(text: string, part: string, p: nat) {
    p + |part| <= |text| && text[p..p + |part|] == part
  }

  ghost predicate Contains(text: string, part: string) {
    exists p: nat :: PartAt(text, part, p)
  }

  lemma ContainsAround(before: string, text: string, after: string, part: string)
    requires Contains(text, part)
    ensures Contains(before + text + after, part)
  {
    var p: nat :| PartAt(text, part, p);
    var whole, q := before + text + after, |before| + p;
    assert whole[q..q + |part|] == text[p..p + |part|];
    assert PartAt(whole, part, q);
  }

  lemma {:induction false} PartIsContained(parts: seq<string>, i: nat)
    requires i < |parts|
    ensures Contains(Paragraphs(parts), parts[i])
  {
    var n := |parts| - 1;
    if i == n {
      assert PartAt(parts[n], parts[n], 0);
      if n > 0 {
        ContainsAround(Paragraphs(parts[..n]) + "\n\n", parts[n], "", parts[n]);
        assert Paragraphs(parts) == Paragraphs(parts[..n]) + "\n\n" + parts[n] + "";
      }
    } else {
      PartIsContained(parts[..n], i);
      ContainsAround("", Paragraphs(parts[..n]), "\n\n" + parts[n], parts[i]);
      assert Paragraphs(parts) == "" + Paragraphs(parts[..n]) + ("\n\n" + parts[n]);
    }
  }

  lemma ContainedThrough(text: string, middle: string, part: string)
    requires Contains(text, middle) && Contains(middle, part)
    ensures Contains(text, part)
  {
    var p: nat :| PartAt(text, middle, p);
    ContainsAround(text[..p], middle, text[p + |middle|..], part);
    assert text == text[..p] + middle + text[p + |middle|..];
  }

  ghost predicate ShowsChunks(whole: string, chunks: seq<Chunk>) {
    forall i :: 0 <= i < |chunks| ==> Contains(whole, ChunkText(i + 1, chunks[i]))
  }

  ghost predicate ShowsLinks(whole: string, links: seq<Link>) {
    forall i :: 0 <= i < |links| ==> Contains(whole, LinkText(i + 1, links[i]))
  }

  lemma TextsShowChunks(whole: string, chunks: seq<Chunk>)
    requires forall i :: 0 <= i < |chunks| ==> Contains(whole, ChunkTexts(chunks)[i])
    ensures ShowsChunks(whole, chunks)
  {
    assert forall i :: 0 <= i < |chunks| ==> ChunkTexts(chunks)[i] == ChunkText(i + 1, chunks[i]);
  }

  lemma TextsShowLinks(whole: string, links: seq<Link>)
    requires forall i :: 0 <= i < |links| ==> Contains(whole, LinkTexts(links)[i])
    ensures ShowsLinks(whole, links)
  {
    assert forall i :: 0 <= i < |links| ==> LinkTexts(links)[i] == LinkText(i + 1, links[i]);
  }

  /** Before it is cut to its limit, the context shows every source under its number. */
  lemma SourcesAreNumbered(content: string, chunks: seq<Chunk>, links: seq<Link>)
    ensures ShowsChunks(Paragraphs(Sections(content, chunks, links)), chunks)
    ensures ShowsLinks(Paragraphs(Sections(content, chunks, links)), links)
  {
    var sections := Sections(content, chunks, links);
    if chunks != [] {
      SectionShows(sections, if Strip(content) != "" then 1 else 0, ChunkTexts(chunks));
    }
    if links != [] {
      SectionShows(sections, |sections| - 1, LinkTexts(links));
    }
    TextsShowChunks(Paragraphs(sections), chunks);
    TextsShowLinks(Paragraphs(sections), links);
  }

  lemma SectionShows(sections: seq<string>, k: nat, texts: seq<string>)
    requires k < |sections| && sections[k] == Paragraphs(texts)
    ensures forall i :: 0 <= i < |texts| ==> Contains(Paragraphs(sections), texts[i])
  {
    PartIsContained(sections, k);
    forall i | 0 <= i < |texts|
      ensures Contains(Paragraphs(sections), texts[i])
    {
      PartIsContained(texts, i);
      ContainedThrough(Paragraphs(sections), sections[k], texts[i]);
    }
  }

  lemma {:induction false} ParagraphsStart(parts: seq<string>)
    requires parts != [] && parts[0] != ""
    ensures Paragraphs(parts) != "" && Paragraphs(parts)[0] == parts[0][0]
  {
    if |parts| > 1 {
      var front := parts[..|parts| - 1];
      assert front[0] == parts[0];
      ParagraphsStart(front);
      assert Paragraphs(parts) == Paragraphs(front) + "\n\n" + parts[|parts| - 1];
    }
  }

  lemma SectionsStart(content: string, chunks: seq<Chunk>, links: seq<Link>)
    requires Strip(content) != "" || chunks != [] || links != []
    ensures var sections := Sections(content, chunks, links);
            sections != [] && sections[0] != "" && !PythonSpace(sections[0][0])
  {
    if Strip(content) != "" {
      TrimIsTrimmed(PythonSpace, content);
    } else if chunks != [] {
      assert ChunkTexts(chunks)[0] == ChunkText(1, chunks[0]) && ChunkText(1, chunks[0])[0] == '[';
      ParagraphsStart(ChunkTexts(chunks));
    } else {
      assert LinkTexts(links)[0] == LinkText(1, links[0]) && LinkText(1, links[0])[0] == '[';
      ParagraphsStart(LinkTexts(links));
    }
  }

  lemma CutKeepsStart(space: SpaceTest, whole: string, limit: nat)
    requires limit >= 1 && whole != "" && !space(whole[0])
    ensures Trim(space, Take(whole, limit)) != ""
  {
    var cut := Take(whole, limit);
    assert cut[0] == whole[0];
    var lo, hi := TrimCovers(space, cut, 0);
  }

  /** The context is at most as long as its limit. */
  lemma ContextFits(content: string, chunks: seq<Chunk>, links: seq<Link>, limit: nat)
    ensures |FormatContext(content, chunks, links, limit)| <= limit
  {
    TrimIsTrimmed(PythonSpace, Take(Paragraphs(Sections(content, chunks, links)), limit));
  }

  /** With any content at all the context is not empty. */
  lemma ContextIsNotEmpty(content: string, chunks: seq<Chunk>, links: seq<Link>, limit: nat)
    requires limit >= 1 && (Strip(content) != "" || chunks != [] || links != [])
    ensures FormatContext(content, chunks, links, limit) != ""
  {
    var sections := Sections(content, chunks, links);
    SectionsStart(content, chunks, links);
    ParagraphsStart(sections);
    CutKeepsStart(PythonSpace, Paragraphs(sections), limit);
  }

  /** The sources shown to the model: knowledge first, and as many links as there is room for. */
  function ShownChunks(settings: Settings, state: State): seq<Chunk> {
    Take(state.chunks, settings.maxCitations)
  }

  function ShownLinks(settings: Settings, state: State): seq<Link> {
    Take(state.links, settings.maxCitations - |ShownChunks(settings, state)|)
  }

  function ShownContext(settings: Settings, state: State): string {
    FormatContext(state.context, ShownChunks(settings, state), ShownLinks(settings, state), settings.maxContext)
  }

  // ----- Nodes -----

  predicate CanRewrite(settings: Settings, state: State) {
    state.route == Rag && state.rewrites < settings.maxRewrites
  }

  function Evaluate(settings: Settings, state: State, reply: Reply): Evaluation {
    var canRewrite := CanRewrite(settings, state);
    if state.chunks == [] && state.links == [] then
      Evaluation(if canRewrite then Rewrite else Refuse, "", "no_evidence")
    else if reply.evaluation.decision == Rewrite && !canRewrite then
      reply.evaluation.(decision := Refuse, rewriteQuery := "")
    else reply.evaluation
  }

  /** Structural check first; the model is asked only about an answer that passes it and is no refusal. */
  function ValidateCandidate(settings: Settings, state: State, answer: string, verdict: Structure): Structure {
    var structural := ValidateStructure(settings.digits, answer, |state.chunks|, |state.links|);
    if !structural.supported || IsNoAnswer(answer) then structural else verdict
  }

  function FinishAnswer(state: State, answer: string, chunks: seq<Chunk>, links: seq<Link>): State {
    state.(answer := answer, chunks := chunks, links := links,
           citationCount := |chunks| + |links|, answered := !IsNoAnswer(answer))
  }

  function ValidateAnswer(settings: Settings, state: State, reply: Reply): State {
    var first := ValidateCandidate(settings, state, state.answer, reply.verdict);
    var answer := if first.supported then state.answer else reply.repaired;
    var validation := if first.supported then first
                      else ValidateCandidate(settings, state, reply.repaired, reply.secondVerdict);
    if validation.supported then
      var r := SelectReferenced(settings.digits, answer, state.chunks, state.links);
      FinishAnswer(state, r.answer, r.chunks, r.links)
    else FinishAnswer(state, NO_ANSWER, [], [])
  }

  function Run(settings: Settings, request: Request, node: Node, state: State, reply: Reply): State {
    match node
    case RouteNode =>
      state.(route := reply.route,
             searchQuery := if reply.searchQuery == "" then request.question else reply.searchQuery,
             topic := if reply.topic == "" then request.question else reply.topic)
    case RetrieveNode | OverviewNode | NavigationNode =>
      state.(chunks := reply.tool.chunks, context := reply.tool.content, complete := reply.tool.complete)
    case WebNode => state.(links := reply.web)
    case EvaluateNode => state.(evaluation := Evaluate(settings, state, reply))
    case RewriteNode =>
      var own := Strip(state.evaluation.rewriteQuery);
      state.(searchQuery := if own == "" then reply.rewritten else own, rewrites := state.rewrites + 1)
    case SynthesizeNode =>
      state.(answer := if ShownContext(settings, state) == "" then NO_ANSWER else reply.answer,
             chunks := ShownChunks(settings, state), links := ShownLinks(settings, state))
    case ValidateNode => ValidateAnswer(settings, state, reply)
    case RefuseNode => FinishAnswer(state, NO_ANSWER, [], [])
    case EndNode => state
  }

  function AfterKnowledgeTool(state: State): Node {
    if Strip(state.context) == "" || state.chunks == [] then RefuseNode
    else if state.route == Overview && !state.complete then RefuseNode
    else SynthesizeNode
  }

  function AfterEvaluation(settings: Settings, state: State): Node {
    if state.evaluation.decision == Sufficient then SynthesizeNode
    else if state.evaluation.decision == Rewrite && CanRewrite(settings, state) then RewriteNode
    else RefuseNode
  }

  /** Where the graph goes from a node, given the state it left. */
  function Next(settings: Settings, request: Request, node: Node, state: State): Node {
    match node
    case RouteNode =>
      (match state.route case Rag => RetrieveNode case Overview => OverviewNode case Navigation => NavigationNode)
    case RetrieveNode => if request.webSearch then WebNode else EvaluateNode
    case WebNode => EvaluateNode
    case OverviewNode | NavigationNode => AfterKnowledgeTool(state)
    case EvaluateNode => AfterEvaluation(settings, state)
    case RewriteNode => RetrieveNode
    case SynthesizeNode => ValidateNode
    case ValidateNode | RefuseNode | EndNode => EndNode
  }

  /** What a node asks of the model and the tools. */
  function Calls(settings: Settings, node: Node, state: State, reply: Reply): seq<Call> {
    NodeCalls(settings, node, state, reply, ShownContext(settings, state),
              FormatContext(state.context, state.chunks, state.links, settings.maxContext))
  }

  /** `shown` is the context cut to the citation limit, `context` the one of the sources in the state. */
  function NodeCalls(settings: Settings, node: Node, state: State, reply: Reply, shown: string,
                     context: string): seq<Call> {
    match node
    case RouteNode => [AskRoute]
    case RetrieveNode => [KnowledgeSearch(state.searchQuery)]
    case OverviewNode => [KnowledgeOverview]
    case NavigationNode => [DocumentNavigation(state.topic)]
    case WebNode => [WebSearching]
    case EvaluateNode =>
      if state.chunks == [] && state.links == [] then [] else [AskEvidence(shown, CanRewrite(settings, state))]
    case RewriteNode => if Strip(state.evaluation.rewriteQuery) == "" then [AskRewrite] else []
    case SynthesizeNode => if shown == "" then [] else [AskAnswer(shown)]
    case ValidateNode => ValidateCalls(settings, state, reply, context)
    case RefuseNode | EndNode => []
  }

  function ValidateCalls(settings: Settings, state: State, reply: Reply, context: string): seq<Call> {
    Checking(settings, state, state.answer, context)
    + (if ValidateCandidate(settings, state, state.answer, reply.verdict).supported then []
       else [AskAnswer(context)] + Checking(settings, state, reply.repaired, context))
  }

  function Checking(settings: Settings, state: State, answer: string, context: string): seq<Call> {
    if ValidateStructure(settings.digits, answer, |state.chunks|, |state.links|).supported && !IsNoAnswer(answer)
    then [AskValidation(answer, context)] else []
  }

  // ----- Runs -----

  /** The replies so far, oldest innermost. */
  datatype History = Begin | Then(earlier: History, reply: Reply)

  datatype Point = Point(node: Node, state: State)

  function At(settings: Settings, request: Request, h: History): Point {
    match h
    case Begin => Point(RouteNode, InitialState(request))
    case Then(earlier, reply) =>
      var p := At(settings, request, earlier);
      var state := Run(settings, request, p.node, p.state, reply);
      Point(Next(settings, request, p.node, state), state)
  }

  /** Nothing runs after the end node. */
  ghost predicate Possible(settings: Settings, request: Request, h: History) {
    h.Then? ==> Possible(settings, request, h.earlier) && At(settings, request, h.earlier).node != EndNode
  }

  function Nodes(h: History): nat {
    if h.Begin? then 0 else 1 + Nodes(h.earlier)
  }

  function CallsMade(settings: Settings, request: Request, h: History): seq<Call> {
    match h
    case Begin => []
    case Then(earlier, reply) =>
      var p := At(settings, request, earlier);
      CallsMade(settings, request, earlier) + Calls(settings, p.node, p.state, reply)
  }

  function Searches(calls: seq<Call>): nat {
    if calls == [] then 0
    else Searches(calls[..|calls| - 1]) + (if calls[|calls| - 1].KnowledgeSearch? then 1 else 0)
  }

  function Answers(calls: seq<Call>): nat {
    if calls == [] then 0
    else Answers(calls[..|calls| - 1]) + (if calls[|calls| - 1].AskAnswer? then 1 else 0)
  }

  /** The chunks of the last knowledge tool reply, and the links of the last web search. */
  function LastChunks(settings: Settings, request: Request, h: History): seq<Chunk> {
    match h
    case Begin => []
    case Then(earlier, reply) =>
      var node := At(settings, request, earlier).node;
      if node.RetrieveNode? || node.OverviewNode? || node.NavigationNode? then reply.tool.chunks
      else LastChunks(settings, request, earlier)
  }

  function LastLinks(settings: Settings, request: Request, h: History): seq<Link> {
    match h
    case Begin => []
    case Then(earlier, reply) =>
      if At(settings, request, earlier).node.WebNode? then reply.web else LastLinks(settings, request, earlier)
  }

  // ----- Bounds -----

  /** Nodes executed before this one, at most, after `a` rewrites. */
  function NodesBefore(node: Node, a: nat): nat {
    match node
    case RouteNode => 0
    case RetrieveNode => 1 + 4 * a
    case OverviewNode | NavigationNode => 1
    case WebNode => 2 + 4 * a
    case EvaluateNode => 3 + 4 * a
    case RewriteNode | SynthesizeNode | RefuseNode => 4 + 4 * a
    case ValidateNode => 5 + 4 * a
    case EndNode => 6 + 4 * a
  }

  function SearchesBefore(node: Node, a: nat): nat {
    if node.RouteNode? || node.OverviewNode? || node.NavigationNode? then 0
    else if node.RetrieveNode? then a
    else a + 1
  }

  function AnswersBefore(node: Node): nat {
    if node.ValidateNode? then 1 else if node.EndNode? then 2 else 0
  }

  /** What a run may have used up when it stands at a node. */
  ghost predicate Budget(settings: Settings, node: Node, rewrites: nat, nodes: nat, searches: nat, answers: nat) {
    && rewrites <= settings.maxRewrites
    && (node.RouteNode? || node.OverviewNode? || node.NavigationNode? ==> rewrites == 0)
    && (node.RewriteNode? ==> rewrites < settings.maxRewrites)
    && nodes <= NodesBefore(node, rewrites)
    && searches <= SearchesBefore(node, rewrites)
    && answers <= AnswersBefore(node)
  }

  /** The counters at a point of a run. */
  ghost predicate WithinBudget(settings: Settings, request: Request, h: History) {
    var p := At(settings, request, h);
    var calls := CallsMade(settings, request, h);
    Budget(settings, p.node, p.state.rewrites, Nodes(h), Searches(calls), Answers(calls))
  }

  lemma {:induction false} CountOfBoth(a: seq<Call>, b: seq<Call>)
    ensures Searches(a + b) == Searches(a) + Searches(b) && Answers(a + b) == Answers(a) + Answers(b)
  {
    if b == [] {
      assert a + b == a;
    } else {
      CountOfBoth(a, b[..|b| - 1]);
      assert (a + b)[..|a + b| - 1] == a + b[..|b| - 1];
    }
  }

  lemma SingleCall(call: Call)
    ensures Searches([call]) == (if call.KnowledgeSearch? then 1 else 0)
    ensures Answers([call]) == (if call.AskAnswer? then 1 else 0)
  {
    assert [call][..0] == [];
  }

  lemma AtMostOneCall(calls: seq<Call>)
    requires |calls| <= 1
    ensures Searches(calls) == (if calls != [] && calls[0].KnowledgeSearch? then 1 else 0)
    ensures Answers(calls) == (if calls != [] && calls[0].AskAnswer? then 1 else 0)
  {
    if calls != [] {
      assert calls == [calls[0]];
      SingleCall(calls[0]);
    }
  }

  lemma CallsOfValidate(settings: Settings, state: State, reply: Reply, context: string)
    ensures Searches(ValidateCalls(settings, state, reply, context)) == 0
    ensures Answers(ValidateCalls(settings, state, reply, context)) <= 1
  {
    var first := Checking(settings, state, state.answer, context);
    var second := Checking(settings, state, reply.repaired, context);
    CheckingAsksNothing(settings, state, state.answer, context);
    CheckingAsksNothing(settings, state, reply.repaired, context);
    if ValidateCandidate(settings, state, state.answer, reply.verdict).supported {
      CountOfBoth(first, []);
    } else {
      RepairCalls(first, AskAnswer(context), second);
    }
  }

  lemma RepairCalls(first: seq<Call>, repair: Call, second: seq<Call>)
    requires repair.AskAnswer?
    ensures Searches(first + ([repair] + second)) == Searches(first) + Searches(second)
    ensures Answers(first + ([repair] + second)) == Answers(first) + 1 + Answers(second)
  {
    CountOfBoth(first, [repair] + second);
    CountOfBoth([repair], second);
    SingleCall(repair);
  }

  /** One node costs at most one search, and that only at the retrieve node; likewise for answers. */
  lemma CallsOfNode(settings: Settings, node: Node, state: State, reply: Reply, shown: string, context: string)
    ensures var calls := NodeCalls(settings, node, state, reply, shown, context);
            && Searches(calls) == (if node.RetrieveNode? then 1 else 0)
            && Answers(calls) <= (if node.SynthesizeNode? || node.ValidateNode? then 1 else 0)
  {
    if node.ValidateNode? {
      CallsOfValidate(settings, state, reply, context);
    } else {
      AtMostOneCall(NodeCalls(settings, node, state, reply, shown, context));
    }
  }

  lemma CheckingAsksNothing(settings: Settings, state: State, answer: string, context: string)
    ensures Searches(Checking(settings, state, answer, context)) == 0
    ensures Answers(Checking(settings, state, answer, context)) == 0
  {
    SingleCall(AskValidation(answer, context));
  }

  lemma RewritesAfter(settings: Settings, request: Request, node: Node, state: State, reply: Reply)
    ensures Run(settings, request, node, state, reply).rewrites == state.rewrites + if node.RewriteNode? then 1 else 0
  {
  }

  /** One node keeps within the budget of the node that follows. */
  lemma NodeKeepsBudget(settings: Settings, request: Request, node: Node, state: State, after: State,
                        nodes: nat, searches: nat, answers: nat)
    requires node != EndNode && Budget(settings, node, state.rewrites, nodes, searches, answers)
    requires after.rewrites == state.rewrites + if node.RewriteNode? then 1 else 0
    ensures Budget(settings, Next(settings, request, node, after), after.rewrites, nodes + 1,
                   searches + (if node.RetrieveNode? then 1 else 0),
                   answers + (if node.SynthesizeNode? || node.ValidateNode? then 1 else 0))
  {
  }

  lemma {:induction false} EveryRunWithinBudget(settings: Settings, request: Request, h: History)
    requires Possible(settings, request, h)
    ensures WithinBudget(settings, request, h)
  {
    if h.Then? {
      EveryRunWithinBudget(settings, request, h.earlier);
      var p, q := At(settings, request, h.earlier), At(settings, request, h);
      var before, calls := CallsMade(settings, request, h.earlier), Calls(settings, p.node, p.state, h.reply);
      RewritesAfter(settings, request, p.node, p.state, h.reply);
      NodeKeepsBudget(settings, request, p.node, p.state, q.state, Nodes(h.earlier), Searches(before), Answers(before));
      CallsOfNode(settings, p.node, p.state, h.reply, ShownContext(settings, p.state),
                  FormatContext(p.state.context, p.state.chunks, p.state.links, settings.maxContext));
      CountOfBoth(before, calls);
      assert CallsMade(settings, request, h) == before + calls;
    }
  }

  lemma BudgetIsBounded(node: Node, a: nat, k: nat)
    requires a <= k
    ensures NodesBefore(node, a) <= 4 * k + 6 && SearchesBefore(node, a) <= k + 1 && AnswersBefore(node) <= 2
  {
  }

  /** Whatever is replied, a run with k rewrites allowed executes at most 4k+6 nodes, searches at most k+1
      times and asks for at most two answers. */
  lemma RunsAreBounded(settings: Settings, request: Request, h: History)
    requires Possible(settings, request, h)
    ensures Nodes(h) <= 4 * settings.maxRewrites + 6
    ensures Searches(CallsMade(settings, request, h)) <= settings.maxRewrites + 1
    ensures Answers(CallsMade(settings, request, h)) <= 2
  {
    EveryRunWithinBudget(settings, request, h);
    var p := At(settings, request, h);
    BudgetIsBounded(p.node, p.state.rewrites, settings.maxRewrites);
  }

  /** The run with further replies after it. */
  function Extend(h: History, replies: seq<Reply>): History
    decreases |replies|
  {
    if replies == [] then h else Extend(Then(h, replies[0]), replies[1..])
  }

  /** The further replies are all for nodes the run reaches, and the last of them ends it. */
  ghost predicate EndsAfter(settings: Settings, request: Request, h: History, replies: seq<Reply>) {
    Possible(settings, request, Extend(h, replies)) && At(settings, request, Extend(h, replies)).node == EndNode
  }

  lemma EndsOneLater(settings: Settings, request: Request, h: History, replies: seq<Reply>, n: nat)
    requires n < |replies| && EndsAfter(settings, request, Then(h, replies[0]), replies[1..][..n])
    ensures EndsAfter(settings, request, h, replies[..n + 1])
  {
    assert replies[..n + 1][0] == replies[0] && replies[..n + 1][1..] == replies[1..][..n];
  }

  /** Whatever is replied, a run comes to its end: some first part of any long enough list of replies takes
      it to the end node, after 4k+6 nodes in all at the latest. */
  lemma {:induction false} RunsEnd(settings: Settings, request: Request, h: History, replies: seq<Reply>)
    returns (n: nat)
    requires Possible(settings, request, h) && |replies| >= 4 * settings.maxRewrites + 6 - Nodes(h)
    ensures n <= |replies| && Nodes(h) + n <= 4 * settings.maxRewrites + 6
    ensures EndsAfter(settings, request, h, replies[..n])
    decreases |replies|
  {
    RunsAreBounded(settings, request, h);
    if At(settings, request, h).node == EndNode {
      n := 0;
    } else {
      RunsAreBounded(settings, request, Then(h, if replies == [] then SomeReply() else replies[0]));
      var rest := RunsEnd(settings, request, Then(h, replies[0]), replies[1..]);
      EndsOneLater(settings, request, h, replies, rest);
      n := rest + 1;
    }
  }

  function SomeReply(): Reply {
    Reply(Rag, "", "", ToolResponse("", [], false), [], Evaluation(Refuse, "", ""), "", "",
          Structure(false, ""), "", Structure(false, ""))
  }

  // ----- Evidence -----

  /** What entitles a run to answer. */
  ghost predicate HasEvidence(state: State) {
    match state.route
    case Rag => state.evaluation.decision == Sufficient
    case Overview => state.complete && Strip(state.context) != ""
    case Navigation => Strip(state.context) != ""
  }

  ghost predicate HasSources(state: State) {
    match state.route
    case Rag => |state.chunks| + |state.links| >= 1
    case Overview => state.chunks != []
    case Navigation => state.chunks != []
  }

  /** Where sources stand when a run is at a node. */
  ghost predicate Stands(settings: Settings, node: Node, s: State, chunks: seq<Chunk>, links: seq<Link>) {
    match node
    case RouteNode => s.chunks == chunks && s.links == links
    case RetrieveNode | WebNode | EvaluateNode | RewriteNode => s.route == Rag && s.chunks == chunks && s.links == links
    case OverviewNode => s.route == Overview && s.chunks == chunks && s.links == links
    case NavigationNode => s.route == Navigation && s.chunks == chunks && s.links == links
    case SynthesizeNode => HasEvidence(s) && HasSources(s) && s.chunks == chunks && s.links == links
    case ValidateNode => Shown(settings, s, chunks, links)
    case RefuseNode => true
    case EndNode => Ended(settings, s, chunks, links)
  }

  ghost predicate Sourced(settings: Settings, request: Request, h: History) {
    var p := At(settings, request, h);
    Stands(settings, p.node, p.state, LastChunks(settings, request, h), LastLinks(settings, request, h))
  }

  /** A candidate answer stands: on evidence, beside the first sources of the last tool replies. */
  ghost predicate Shown(settings: Settings, s: State, chunks: seq<Chunk>, links: seq<Link>) {
    && HasEvidence(s)
    && s.chunks == Take(chunks, settings.maxCitations)
    && s.links == Take(links, settings.maxCitations - |s.chunks|)
  }

  /** A finished run: grounded in the last tool replies, within the citation limit, with honest metrics,
      and answered only on evidence. */
  ghost predicate Ended(settings: Settings, s: State, chunks: seq<Chunk>, links: seq<Link>) {
    && Grounded(settings.digits, Selected(s.answer, s.chunks, s.links))
    && (forall c :: c in s.chunks ==> c in chunks) && (forall l :: l in s.links ==> l in links)
    && |s.chunks| + |s.links| <= settings.maxCitations
    && s.citationCount == |s.chunks| + |s.links|
    && (s.answered <==> s.citationCount >= 1) && (s.answered <==> !IsNoAnswer(s.answer))
    && (s.answered ==> HasEvidence(s))
  }

  lemma SelectionFromSources<C, L>(digits: Digits, answer: string, chunks: seq<C>, links: seq<L>)
    ensures var r := SelectReferenced(digits, answer, chunks, links);
            && (forall c :: c in r.chunks ==> c in chunks)
            && (forall l :: l in r.links ==> l in links)
  {
  }

  lemma RefusedEnds(settings: Settings, s: State, chunks: seq<Chunk>, links: seq<Link>)
    ensures Ended(settings, FinishAnswer(s, NO_ANSWER, [], []), chunks, links)
  {
    RefusalIsNoAnswer();
  }

  lemma SupportedIsSound(settings: Settings, s: State, answer: string, verdict: Structure)
    requires ValidateCandidate(settings, s, answer, verdict).supported
    ensures ValidateStructure(settings.digits, answer, |s.chunks|, |s.links|).supported
  {
  }

  lemma SelectedEnds(settings: Settings, s: State, answer: string, chunks: seq<Chunk>, links: seq<Link>)
    requires ValidateStructure(settings.digits, answer, |s.chunks|, |s.links|).supported
    requires HasEvidence(s) && |s.chunks| + |s.links| <= settings.maxCitations
    requires (forall c :: c in s.chunks ==> c in chunks) && (forall l :: l in s.links ==> l in links)
    ensures var r := SelectReferenced(settings.digits, answer, s.chunks, s.links);
            Ended(settings, FinishAnswer(s, r.answer, r.chunks, r.links), chunks, links)
  {
    SelectionIsGrounded(settings.digits, answer, s.chunks, s.links);
    SelectionFromSources(settings.digits, answer, s.chunks, s.links);
    RefusalIsNoAnswer();
  }

  lemma ValidatedEnds(settings: Settings, s: State, reply: Reply, chunks: seq<Chunk>, links: seq<Link>)
    requires HasEvidence(s) && |s.chunks| + |s.links| <= settings.maxCitations
    requires (forall c :: c in s.chunks ==> c in chunks) && (forall l :: l in s.links ==> l in links)
    ensures Ended(settings, ValidateAnswer(settings, s, reply), chunks, links)
  {
    RefusedEnds(settings, s, chunks, links);
    if ValidateCandidate(settings, s, s.answer, reply.verdict).supported {
      SupportedIsSound(settings, s, s.answer, reply.verdict);
      SelectedEnds(settings, s, s.answer, chunks, links);
    } else if ValidateCandidate(settings, s, reply.repaired, reply.secondVerdict).supported {
      SupportedIsSound(settings, s, reply.repaired, reply.secondVerdict);
      SelectedEnds(settings, s, reply.repaired, chunks, links);
    }
  }

  /** One node, given what it was told and what the last tool replies were before it. */
  ghost predicate StandsAfter(settings: Settings, request: Request, node: Node, s: State, reply: Reply,
                              chunks: seq<Chunk>, links: seq<Link>)
  {
    var after := Run(settings, request, node, s, reply);
    Stands(settings, Next(settings, request, node, after), after,
           if node.RetrieveNode? || node.OverviewNode? || node.NavigationNode? then reply.tool.chunks else chunks,
           if node.WebNode? then reply.web else links)
  }

  lemma SearchingStands(settings: Settings, request: Request, node: Node, s: State, reply: Reply,
                        chunks: seq<Chunk>, links: seq<Link>)
    requires node == RouteNode || node == RetrieveNode || node == WebNode || node == RewriteNode
    requires Stands(settings, node, s, chunks, links)
    ensures StandsAfter(settings, request, node, s, reply, chunks, links)
  {
  }

  lemma ToolStands(settings: Settings, request: Request, node: Node, s: State, reply: Reply,
                   chunks: seq<Chunk>, links: seq<Link>)
    requires node == OverviewNode || node == NavigationNode
    requires Stands(settings, node, s, chunks, links)
    ensures StandsAfter(settings, request, node, s, reply, chunks, links)
  {
  }

  lemma EvaluationStands(settings: Settings, request: Request, s: State, reply: Reply,
                         chunks: seq<Chunk>, links: seq<Link>)
    requires Stands(settings, EvaluateNode, s, chunks, links)
    ensures StandsAfter(settings, request, EvaluateNode, s, reply, chunks, links)
  {
  }

  lemma SynthesisStands(settings: Settings, request: Request, s: State, reply: Reply,
                        chunks: seq<Chunk>, links: seq<Link>)
    requires Stands(settings, SynthesizeNode, s, chunks, links)
    ensures StandsAfter(settings, request, SynthesizeNode, s, reply, chunks, links)
  {
  }

  lemma NodeStands(settings: Settings, request: Request, node: Node, s: State, reply: Reply,
                   chunks: seq<Chunk>, links: seq<Link>)
    requires node != EndNode && Stands(settings, node, s, chunks, links)
    ensures StandsAfter(settings, request, node, s, reply, chunks, links)
  {
    match node
    case OverviewNode | NavigationNode => ToolStands(settings, request, node, s, reply, chunks, links);
    case EvaluateNode => EvaluationStands(settings, request, s, reply, chunks, links);
    case SynthesizeNode => SynthesisStands(settings, request, s, reply, chunks, links);
    case ValidateNode => ValidatedEnds(settings, s, reply, chunks, links);
    case RefuseNode => RefusedEnds(settings, s, chunks, links);
    case _ => SearchingStands(settings, request, node, s, reply, chunks, links);
  }

  lemma {:induction false} EveryRunSourced(settings: Settings, request: Request, h: History)
    requires Possible(settings, request, h)
    ensures Sourced(settings, request, h)
  {
    if h.Then? {
      EveryRunSourced(settings, request, h.earlier);
      var p := At(settings, request, h.earlier);
      NodeStands(settings, request, p.node, p.state, h.reply,
                 LastChunks(settings, request, h.earlier), LastLinks(settings, request, h.earlier));
    }
  }

  ghost predicate EndedAt(settings: Settings, request: Request, h: History) {
    Ended(settings, At(settings, request, h).state, LastChunks(settings, request, h), LastLinks(settings, request, h))
  }

  ghost predicate ShownAt(settings: Settings, request: Request, h: History) {
    Shown(settings, At(settings, request, h).state, LastChunks(settings, request, h), LastLinks(settings, request, h))
  }

  lemma StandsAt(settings: Settings, node: Node, s: State, chunks: seq<Chunk>, links: seq<Link>)
    requires Stands(settings, node, s, chunks, links)
    ensures node == EndNode ==> Ended(settings, s, chunks, links)
    ensures node == ValidateNode ==> Shown(settings, s, chunks, links)
    ensures node == SynthesizeNode ==> HasEvidence(s) && HasSources(s)
  {
  }

  /** Grounded answers, for every model and every tool. */
  lemma FinishedRunsAreGrounded(settings: Settings, request: Request, h: History)
    requires Possible(settings, request, h) && At(settings, request, h).node == EndNode
    ensures EndedAt(settings, request, h)
  {
    EveryRunSourced(settings, request, h);
    StandsAt(settings, EndNode, At(settings, request, h).state,
             LastChunks(settings, request, h), LastLinks(settings, request, h));
  }

  /** The sources shown to the model are the first ones of the last tool replies. */
  lemma ShownSources(settings: Settings, request: Request, h: History)
    requires Possible(settings, request, h) && At(settings, request, h).node == ValidateNode
    ensures ShownAt(settings, request, h)
  {
    EveryRunSourced(settings, request, h);
    StandsAt(settings, ValidateNode, At(settings, request, h).state,
             LastChunks(settings, request, h), LastLinks(settings, request, h));
  }

  // ----- Where an answer comes from -----

  /** What an answered validation node did with the text it settled on. */
  ghost predicate Settled(settings: Settings, shown: State, after: State, raw: string) {
    && !IsNoAnswer(raw)
    && ValidateStructure(settings.digits, raw, |shown.chunks|, |shown.links|).supported
    && var r := SelectReferenced(settings.digits, raw, shown.chunks, shown.links);
       after == FinishAnswer(shown, r.answer, r.chunks, r.links)
  }

  lemma ValidationSettles(settings: Settings, shown: State, reply: Reply) returns (raw: string)
    requires ValidateAnswer(settings, shown, reply).answered
    ensures (raw == shown.answer && reply.verdict.supported) || (raw == reply.repaired && reply.secondVerdict.supported)
    ensures Settled(settings, shown, ValidateAnswer(settings, shown, reply), raw)
  {
    RefusalIsNoAnswer();
    var first := ValidateCandidate(settings, shown, shown.answer, reply.verdict);
    raw := if first.supported then shown.answer else reply.repaired;
    SupportedIsSound(settings, shown, raw, if first.supported then reply.verdict else reply.secondVerdict);
    if IsNoAnswer(raw) {
      RefusalsStayRefusals(raw);
    }
  }

  /** Text and references are those of `raw`, each reference naming the source it named among those shown. */
  ghost predicate Renders(settings: Settings, shown: State, after: State, raw: string) {
    SameAnswer(Tokens(settings.digits, Normalized(raw)), Tokens(settings.digits, after.answer),
               shown.chunks, shown.links, Selected(after.answer, after.chunks, after.links))
  }

  lemma SettledRenders(settings: Settings, shown: State, after: State, raw: string)
    requires Settled(settings, shown, after, raw) && after.answered
    ensures Renders(settings, shown, after, raw)
  {
    SelectionIsGrounded(settings.digits, raw, shown.chunks, shown.links);
  }

  ghost predicate AnsweredRun(settings: Settings, request: Request, h: History) {
    && Possible(settings, request, h)
    && At(settings, request, h).node == EndNode && At(settings, request, h).state.answered
  }

  lemma EndedFrom(settings: Settings, request: Request, node: Node, after: State)
    requires node != EndNode && Next(settings, request, node, after) == EndNode
    ensures node == ValidateNode || node == RefuseNode
  {
  }

  lemma ValidatedFrom(settings: Settings, request: Request, node: Node, after: State)
    requires Next(settings, request, node, after) == ValidateNode
    ensures node == SynthesizeNode
  {
  }

  lemma RefusalIsUnanswered(settings: Settings, request: Request, s: State, reply: Reply)
    ensures !Run(settings, request, RefuseNode, s, reply).answered
  {
    RefusalIsNoAnswer();
  }

  lemma CandidateOf(settings: Settings, request: Request, s: State, reply: Reply)
    ensures var candidate := Run(settings, request, SynthesizeNode, s, reply).answer;
            candidate == NO_ANSWER || candidate == reply.answer
  {
  }

  lemma StepOf(settings: Settings, request: Request, h: History)
    requires h.Then?
    ensures var p, q := At(settings, request, h.earlier), At(settings, request, h);
            && q.state == Run(settings, request, p.node, p.state, h.reply)
            && q.node == Next(settings, request, p.node, q.state)
  {
  }

  /** The end of an answered run: synthesis, then validation, and the state validation left. */
  ghost predicate CameFromValidation(settings: Settings, request: Request, h: History) {
    && h.Then? && h.earlier.Then?
    && At(settings, request, h.earlier).node == ValidateNode
    && At(settings, request, h.earlier.earlier).node == SynthesizeNode
    && At(settings, request, h).state == ValidateAnswer(settings, At(settings, request, h.earlier).state, h.reply)
  }

  /** The candidate is what synthesis was answered, or the refusal that needs no model. */
  ghost predicate CandidateIsReply(settings: Settings, request: Request, h: History)
    requires h.Then?
  {
    var candidate := At(settings, request, h).state.answer;
    candidate == NO_ANSWER || candidate == h.reply.answer
  }

  lemma ValidationFollowsSynthesis(settings: Settings, request: Request, h: History)
    requires Possible(settings, request, h) && At(settings, request, h).node == ValidateNode
    ensures h.Then? && At(settings, request, h.earlier).node == SynthesizeNode
    ensures CandidateIsReply(settings, request, h)
  {
    StepOf(settings, request, h);
    var p := At(settings, request, h.earlier);
    ValidatedFrom(settings, request, p.node, At(settings, request, h).state);
    CandidateOf(settings, request, p.state, h.reply);
  }

  /** The last node of an answered run. */
  ghost predicate EndsWithValidation(settings: Settings, request: Request, h: History) {
    && h.Then? && Possible(settings, request, h.earlier)
    && At(settings, request, h.earlier).node == ValidateNode
    && At(settings, request, h).state == ValidateAnswer(settings, At(settings, request, h.earlier).state, h.reply)
  }

  lemma AnswersEndWithValidation(settings: Settings, request: Request, h: History)
    requires AnsweredRun(settings, request, h)
    ensures EndsWithValidation(settings, request, h)
  {
    StepOf(settings, request, h);
    var p := At(settings, request, h.earlier);
    EndedFrom(settings, request, p.node, At(settings, request, h).state);
    RefusalIsUnanswered(settings, request, p.state, h.reply);
  }

  lemma AnswersFollowValidation(settings: Settings, request: Request, h: History)
    requires AnsweredRun(settings, request, h)
    ensures CameFromValidation(settings, request, h) && CandidateIsReply(settings, request, h.earlier)
  {
    AnswersEndWithValidation(settings, request, h);
    ValidationFollowsSynthesis(settings, request, h.earlier);
  }

  /** A reply of the run the model itself called supported: what synthesis was answered, or the repair. */
  ghost predicate SupportedReply(h: History, raw: string)
    requires h.Then? && h.earlier.Then?
  {
    || (raw == h.earlier.reply.answer && h.reply.verdict.supported)
    || (raw == h.reply.repaired && h.reply.secondVerdict.supported)
  }

  /** An answered run ends with synthesis and validation; it settles on the model's reply to synthesis or on
      its one repair, which passed the structure check and which the model's own validation supported. */
  lemma AnsweredBySupport(settings: Settings, request: Request, h: History) returns (raw: string)
    requires AnsweredRun(settings, request, h)
    ensures CameFromValidation(settings, request, h) && SupportedReply(h, raw)
    ensures Settled(settings, At(settings, request, h.earlier).state, At(settings, request, h).state, raw)
  {
    AnswersFollowValidation(settings, request, h);
    var shown := At(settings, request, h.earlier).state;
    raw := ValidationSettles(settings, shown, h.reply);
    RefusalIsNoAnswer();
  }

  /** Text and references of the answer of a run are the model's, and each reference names the source it
      named among those shown to the model, which are the first ones of the last tool replies. */
  lemma AnswersAreTheModels(settings: Settings, request: Request, h: History) returns (raw: string)
    requires AnsweredRun(settings, request, h)
    ensures CameFromValidation(settings, request, h) && SupportedReply(h, raw)
    ensures ShownAt(settings, request, h.earlier)
    ensures Renders(settings, At(settings, request, h.earlier).state, At(settings, request, h).state, raw)
  {
    raw := AnsweredBySupport(settings, request, h);
    ShownSources(settings, request, h.earlier);
    SettledRenders(settings, At(settings, request, h.earlier).state, At(settings, request, h).state, raw);
  }

  /** With evidence and sources the context is not empty, and an answer is asked for. */
  lemma EvidenceAsks(settings: Settings, s: State, reply: Reply)
    requires HasSources(s) && settings.maxCitations >= 1 && settings.maxContext >= 1
    ensures Asks(settings, s, reply)
  {
    EvidenceShows(settings, s);
    AskedWith(settings, s, reply, ShownContext(settings, s),
              FormatContext(s.context, s.chunks, s.links, settings.maxContext));
  }

  lemma EvidenceShows(settings: Settings, s: State)
    requires HasSources(s) && settings.maxCitations >= 1 && settings.maxContext >= 1
    ensures ShownContext(settings, s) != ""
  {
    assert s.chunks == [] ==> s.links != [];
    ContextIsNotEmpty(s.context, ShownChunks(settings, s), ShownLinks(settings, s), settings.maxContext);
  }

  lemma AskedWith(settings: Settings, s: State, reply: Reply, shown: string, context: string)
    requires shown != ""
    ensures NodeCalls(settings, SynthesizeNode, s, reply, shown, context) == [AskAnswer(shown)]
  {
  }

  ghost predicate Asks(settings: Settings, s: State, reply: Reply) {
    Calls(settings, SynthesizeNode, s, reply) == [AskAnswer(ShownContext(settings, s))]
  }

  /** A run that gets as far as synthesis always asks for an answer: the context is never empty there. */
  lemma SynthesisAsks(settings: Settings, request: Request, h: History, reply: Reply)
    requires Possible(settings, request, h) && At(settings, request, h).node == SynthesizeNode
    requires settings.maxCitations >= 1 && settings.maxContext >= 1
    ensures Asks(settings, At(settings, request, h).state, reply)
  {
    EveryRunSourced(settings, request, h);
    StandsAt(settings, SynthesizeNode, At(settings, request, h).state,
             LastChunks(settings, request, h), LastLinks(settings, request, h));
    EvidenceAsks(settings, At(settings, request, h).state, reply);
  }

  // ----- What is searched for -----

  /** The query the last evaluation advised to search for; none when there was nothing to evaluate. */
  function LastAdvice(settings: Settings, request: Request, h: History): string {
    match h
    case Begin => ""
    case Then(earlier, reply) =>
      if !At(settings, request, earlier).node.EvaluateNode? then LastAdvice(settings, request, earlier)
      else if LastChunks(settings, request, earlier) == [] && LastLinks(settings, request, earlier) == [] then ""
      else reply.evaluation.rewriteQuery
  }

  /** The query asked for last: the planned one or the question at first, then what each rewrite came to:
      the advice of the evaluation before it, or a query of the model's when there was none. */
  function WantedQuery(settings: Settings, request: Request, h: History): string {
    match h
    case Begin => request.question
    case Then(earlier, reply) =>
      var node := At(settings, request, earlier).node;
      if node.RouteNode? then (if reply.searchQuery == "" then request.question else reply.searchQuery)
      else if node.RewriteNode? then
        var advice := Strip(LastAdvice(settings, request, earlier));
        if advice == "" then reply.rewritten else advice
      else WantedQuery(settings, request, earlier)
  }

  /** What the state says of queries at a node. */
  ghost predicate QueryStands(node: Node, s: State, wanted: string, advice: string) {
    s.searchQuery == wanted && (node.RewriteNode? ==> s.evaluation.rewriteQuery == advice)
  }

  lemma NodeKeepsQuery(settings: Settings, request: Request, node: Node, s: State, reply: Reply, wanted: string,
                       advice: string)
    requires node != EndNode && QueryStands(node, s, wanted, advice) && (node.EvaluateNode? ==> s.route == Rag)
    ensures var after := Run(settings, request, node, s, reply);
            QueryStands(
              Next(settings, request, node, after), after,
              (if node.RouteNode? then (if reply.searchQuery == "" then request.question else reply.searchQuery)
               else if node.RewriteNode? then (if Strip(advice) == "" then reply.rewritten else Strip(advice))
               else wanted),
              (if !node.EvaluateNode? then advice
               else if s.chunks == [] && s.links == [] then ""
               else reply.evaluation.rewriteQuery))
  {
  }

  ghost predicate QueryStandsAt(settings: Settings, request: Request, h: History) {
    var p := At(settings, request, h);
    QueryStands(p.node, p.state, WantedQuery(settings, request, h), LastAdvice(settings, request, h))
  }

  lemma {:induction false} EveryRunWantsQuery(settings: Settings, request: Request, h: History)
    requires Possible(settings, request, h)
    ensures QueryStandsAt(settings, request, h)
  {
    if h.Then? {
      EveryRunWantsQuery(settings, request, h.earlier);
      var p := At(settings, request, h.earlier);
      SourcesAtEvaluation(settings, request, h.earlier);
      NodeKeepsQuery(settings, request, p.node, p.state, h.reply, WantedQuery(settings, request, h.earlier),
                     LastAdvice(settings, request, h.earlier));
    }
  }

  lemma SourcesAtEvaluation(settings: Settings, request: Request, h: History)
    requires Possible(settings, request, h)
    ensures var p := At(settings, request, h);
            p.node == EvaluateNode ==>
              && p.state.route == Rag && p.state.chunks == LastChunks(settings, request, h)
              && p.state.links == LastLinks(settings, request, h)
  {
    EveryRunSourced(settings, request, h);
  }

  lemma RetrievalAsks(settings: Settings, s: State, reply: Reply)
    ensures Calls(settings, RetrieveNode, s, reply) == [KnowledgeSearch(s.searchQuery)]
  {
  }

  /** Each retrieval searches for the query wanted last; so a rewritten query is the one searched for next. */
  lemma SearchesForWanted(settings: Settings, request: Request, h: History, reply: Reply)
    requires Possible(settings, request, h) && At(settings, request, h).node == RetrieveNode
    ensures Calls(settings, RetrieveNode, At(settings, request, h).state, reply)
         == [KnowledgeSearch(WantedQuery(settings, request, h))]
  {
    EveryRunWantsQuery(settings, request, h);
    RetrievalAsks(settings, At(settings, request, h).state, reply);
  }

  // ----- When a run answers -----

  /** The text passes the structure check, and the model's own unless it is a refusal. */
  ghost predicate Passes(settings: Settings, shown: State, raw: string, verdict: Structure) {
    && ValidateStructure(settings.digits, raw, |shown.chunks|, |shown.links|).supported
    && (IsNoAnswer(raw) || verdict.supported)
  }

  /** The candidate passes and is no refusal; or it does not pass, and its repair does and is none. */
  ghost predicate Convinces(settings: Settings, shown: State, reply: Reply) {
    if Passes(settings, shown, shown.answer, reply.verdict) then !IsNoAnswer(Normalized(shown.answer))
    else Passes(settings, shown, reply.repaired, reply.secondVerdict) && !IsNoAnswer(Normalized(reply.repaired))
  }

  /** A node was left without enough evidence to answer: a knowledge tool brought nothing to show, or an
      overview was not complete, or an evaluation was not satisfied and no rewrite was asked for or left. */
  ghost predicate LeftWithoutEvidence(settings: Settings, p: Point, reply: Reply, chunks: seq<Chunk>, links: seq<Link>)
  {
    var nothing := chunks == [] && links == [];
    match p.node
    case OverviewNode => Strip(reply.tool.content) == "" || reply.tool.chunks == [] || !reply.tool.complete
    case NavigationNode => Strip(reply.tool.content) == "" || reply.tool.chunks == []
    case EvaluateNode =>
      if p.state.rewrites < settings.maxRewrites then !nothing && reply.evaluation.decision == Refuse
      else nothing || reply.evaluation.decision != Sufficient
    case _ => false
  }

  lemma RefusesFrom(settings: Settings, request: Request, p: Point, reply: Reply, chunks: seq<Chunk>, links: seq<Link>)
    requires p.node != EndNode && Stands(settings, p.node, p.state, chunks, links)
    ensures var after := Run(settings, request, p.node, p.state, reply);
            Next(settings, request, p.node, after) == RefuseNode
            <==> LeftWithoutEvidence(settings, p, reply, chunks, links)
  {
  }

  lemma ValidationConvinces(settings: Settings, shown: State, reply: Reply)
    ensures ValidateAnswer(settings, shown, reply).answered <==> Convinces(settings, shown, reply)
  {
    RefusalIsNoAnswer();
    var first := ValidateCandidate(settings, shown, shown.answer, reply.verdict);
    var raw := if first.supported then shown.answer else reply.repaired;
    var verdict := if first.supported then reply.verdict else reply.secondVerdict;
    if ValidateCandidate(settings, shown, raw, verdict).supported {
      SelectionIsGrounded(settings.digits, raw, shown.chunks, shown.links);
    }
  }

  /** A run ended by refusing, without evidence, or by validation. */
  ghost predicate EndedWithoutEvidence(settings: Settings, request: Request, h: History) {
    && h.Then? && h.earlier.Then?
    && var before := h.earlier.earlier;
       LeftWithoutEvidence(settings, At(settings, request, before), h.earlier.reply,
                           LastChunks(settings, request, before), LastLinks(settings, request, before))
  }

  ghost predicate EndedConvinced(settings: Settings, request: Request, h: History) {
    && h.Then? && At(settings, request, h.earlier).node == ValidateNode
    && Convinces(settings, At(settings, request, h.earlier).state, h.reply)
  }

  lemma RefusedWithoutEvidence(settings: Settings, request: Request, h: History)
    requires Possible(settings, request, h) && h.Then?
    ensures At(settings, request, h).node == RefuseNode <==>
              LeftWithoutEvidence(settings, At(settings, request, h.earlier), h.reply,
                                  LastChunks(settings, request, h.earlier), LastLinks(settings, request, h.earlier))
  {
    EveryRunSourced(settings, request, h.earlier);
    StepOf(settings, request, h);
    RefusesFrom(settings, request, At(settings, request, h.earlier), h.reply,
                LastChunks(settings, request, h.earlier), LastLinks(settings, request, h.earlier));
  }

  ghost predicate FinishedBy(settings: Settings, request: Request, h: History, node: Node) {
    && h.Then? && Possible(settings, request, h.earlier) && At(settings, request, h.earlier).node == node
    && At(settings, request, h).state == Run(settings, request, node, At(settings, request, h.earlier).state, h.reply)
  }

  lemma FinishedByOneOf(settings: Settings, request: Request, h: History)
    requires Possible(settings, request, h) && At(settings, request, h).node == EndNode
    ensures FinishedBy(settings, request, h, ValidateNode) || FinishedBy(settings, request, h, RefuseNode)
  {
    StepOf(settings, request, h);
    EndedFrom(settings, request, At(settings, request, h.earlier).node, At(settings, request, h).state);
  }

  lemma ValidatedWhenConvinced(settings: Settings, request: Request, h: History)
    requires FinishedBy(settings, request, h, ValidateNode)
    ensures At(settings, request, h).state.answered <==> EndedConvinced(settings, request, h)
  {
    ValidationConvinces(settings, At(settings, request, h.earlier).state, h.reply);
  }

  lemma RefusedUnconvinced(settings: Settings, request: Request, h: History)
    requires FinishedBy(settings, request, h, RefuseNode)
    ensures !At(settings, request, h).state.answered && !EndedConvinced(settings, request, h)
  {
    RefusalIsUnanswered(settings, request, At(settings, request, h.earlier).state, h.reply);
  }

  lemma RefusedWhenWithout(settings: Settings, request: Request, h: History)
    requires FinishedBy(settings, request, h, ValidateNode) || FinishedBy(settings, request, h, RefuseNode)
    ensures FinishedBy(settings, request, h, RefuseNode) <==> EndedWithoutEvidence(settings, request, h)
  {
    if h.earlier.Then? {
      RefusedWithoutEvidence(settings, request, h.earlier);
    }
  }

  /** When a finished run is answered: exactly when validation was convinced by the model's reply or its
      repair.  Any other finished run was refused for lack of evidence, or validation was not convinced. */
  lemma AnsweredExactlyWhen(settings: Settings, request: Request, h: History)
    requires Possible(settings, request, h) && At(settings, request, h).node == EndNode
    ensures At(settings, request, h).state.answered <==> EndedConvinced(settings, request, h)
    ensures FinishedBy(settings, request, h, ValidateNode) <==> !EndedWithoutEvidence(settings, request, h)
  {
    FinishedByOneOf(settings, request, h);
    if FinishedBy(settings, request, h, ValidateNode) {
      ValidatedWhenConvinced(settings, request, h);
    } else {
      RefusedUnconvinced(settings, request, h);
    }
    RefusedWhenWithout(settings, request, h);
  }
}
