/**
 * The question router and response composer (`custom_chain`).
 *
 * The vector store and the language model are oracles: total functions handed
 * in as `Oracles`. Besides its text, a reply records the oracle calls made to
 * produce it, in order, so that "no search happened" or "exactly one
 * generation happened" can be stated about it.
 */
module Chain {
  import opened Wrappers
  import opened Text
  import opened Lists
  import opened Loader

  /** A search hit with its distance (lower is closer). */
  datatype Scored = Scored(doc: Document, score: real)

  /** The two prompt templates the chain fills in. */
  datatype Prompt =
    | ContextPrompt(question: string, context: string)  // the policy-data template
    | FallbackPrompt(question: string)                  // the open-ended template

  /** The services the chain consults. */
  datatype Oracles = Oracles(
    search: (string, nat) -> seq<Document>,               // similarity_search(query, k)
    searchWithScore: (string, nat) -> seq<Scored>,        // similarity_search_with_score(query, k)
    generate: Prompt -> string)                           // the "text" of an LLM chain's answer

  /** One consultation of an oracle. */
  datatype Call =
    | Search(query: string, k: nat)
    | SearchWithScore(query: string, k: nat)
    | Generate(prompt: Prompt)

  /** What the chain answers, with the oracle calls it made, in order. */
  datatype Reply = Reply(text: string, calls: seq<Call>)

  const Greetings: seq<string> := ["hi", "hello", "hey", "how are you", "good morning", "good evening"]
  const GreetingText: string := "😊 👋 Hello! How can I assist you today?"

  /** The only intent the chain knows, as the session stores it. */
  const NotCompletedIntent: string := "WRStatus_NOT_COMPLETED"
  const ConfirmQuery: string := "WRStatus not COMPLETED"
  const CompletedMarker: string := "WRStatus: COMPLETED"
  const ConfirmK: nat := 15
  const GeneralK: nat := 10
  const ListLimit: nat := 10
  const Threshold: real := 2.0

  const DataPrefix: string := "📄 (Based on policy data)\n\n"
  const ConfirmHeader: string := DataPrefix + "Here are the WorkRequestIds with WRStatus not COMPLETED:\n\n"
  const FallbackPrefix: string := "🤖 "
  /** The clarification question, in pieces so that the two phrases the session looks for stand apart. */
  const ClarificationText: string :=
    "🧐 " + LookingFor + " WorkRequestIds where WRStatus is not COMPLETED? " + PleaseReply + " to confirm."
  const LookingFor: string := "Are you looking for"
  const PleaseReply: string := "Please reply 'Yes'"

  /** Some greeting phrase occurs in the normalised question. */
  predicate HasGreeting(q: string) {
    exists g :: g in Greetings && Contains(q, g)
  }

  /** The normalised question confirms the pending intent. */
  predicate IsConfirmation(q: string, pending: Option<string>) {
    q == "yes" && pending == Some(NotCompletedIntent)
  }

  /** The normalised question asks about work requests not completed. */
  predicate AsksForOpenRequests(q: string) {
    Contains(q, "wrstatus") && Contains(q, "not completed")
  }

  /** A document that reports a completed work request. */
  predicate Completed(d: Document) {
    Contains(d.content, CompletedMarker)
  }

  /** A document the confirmation may list. */
  predicate Open(d: Document) {
    !Completed(d)
  }

  function DocTexts(docs: seq<Document>): (texts: seq<string>)
    ensures |texts| == |docs|
    ensures forall i :: 0 <= i < |docs| ==> texts[i] == docs[i].content
  {
    seq(|docs|, i requires 0 <= i < |docs| => docs[i].content)
  }

  /**
   * The documents the confirmation lists: the first ten search results, in
   * search order, that do not report a completed request.
   */
  function ListedDocs(results: seq<Document>): (listed: seq<Document>)
    ensures |listed| <= ListLimit
    ensures forall i :: 0 <= i < |listed| ==> !Completed(listed[i])
    ensures IsSubsequence(listed, results)
    ensures listed == [] <==> forall i :: 0 <= i < |results| ==> Completed(results[i])
    ensures |listed| == if |Filter(results, Open)| <= ListLimit then |Filter(results, Open)| else ListLimit
    ensures listed == Filter(results, Open)[..|listed|]
    ensures |Filter(results, Open)| <= ListLimit ==>
      forall i :: 0 <= i < |results| && !Completed(results[i]) ==> results[i] in listed
  {
    var kept := Filter(results, Open);
    var listed := Take(kept, ListLimit);
    PrefixIsSubsequence(listed, kept);
    SubsequenceTrans(listed, kept, results);
    FilterEmpty(results, Open);
    listed
  }

  /** The answer to a confirmed intent: a fixed header, then the listed documents. */
  function ConfirmationText(results: seq<Document>): (text: string)
    ensures IsPrefix(ConfirmHeader, text)
    ensures (forall i :: 0 <= i < |results| ==> Completed(results[i])) ==> text == ConfirmHeader
  {
    ConfirmHeader + JoinLines(DocTexts(ListedDocs(results)))
  }

  /**
   * `[doc for doc, score in results if score < threshold]`: the documents of
   * the results closer than the threshold, in result order.
   */
  function RelevantDocs(results: seq<Scored>): (docs: seq<Document>)
    ensures |docs| <= |results|
    ensures forall d :: d in docs <==>
      exists i :: 0 <= i < |results| && results[i].doc == d && results[i].score < Threshold
    ensures docs == [] <==> forall i :: 0 <= i < |results| ==> results[i].score >= Threshold
    decreases |results|
  {
    if results == [] then []
    else
      var rest := RelevantDocs(results[1..]);
      assert forall i :: 0 < i < |results| ==> results[i] == results[1..][i - 1];
      if results[0].score < Threshold then [results[0].doc] + rest else rest
  }

  /** A search hit close enough to count as relevant. */
  predicate Relevant(s: Scored) {
    s.score < Threshold
  }

  /** The documents of some search hits, in order. */
  function DocsOf(results: seq<Scored>): (docs: seq<Document>)
    ensures |docs| == |results|
    ensures forall i :: 0 <= i < |results| ==> docs[i] == results[i].doc
  {
    seq(|results|, i requires 0 <= i < |results| => results[i].doc)
  }

  /**
   * The relevant documents are the documents of the relevant hits, in the
   * order of the results: a filter, so a subsequence of the results.
   */
  lemma {:induction false} RelevantIsFilter(results: seq<Scored>)
    ensures RelevantDocs(results) == DocsOf(Filter(results, Relevant))
    decreases |results|
  {
    if results != [] {
      RelevantIsFilter(results[1..]);
      FilterCons(results, Relevant);
      DocsOfCons(results[0], Filter(results[1..], Relevant));
    }
  }

  lemma DocsOfCons(x: Scored, ys: seq<Scored>)
    ensures DocsOf([x] + ys) == [x.doc] + DocsOf(ys)
  {
  }

  /**
   * The prompt of the general path: with context when something is relevant,
   * and then the context is made of the first ten relevant documents alone,
   * joined by newlines, so no hit at or beyond the threshold reaches it.
   */
  function GeneralPrompt(question: string, results: seq<Scored>): (p: Prompt)
    ensures p.question == question
    ensures p.ContextPrompt? <==> exists i :: 0 <= i < |results| && results[i].score < Threshold
    ensures p.ContextPrompt? ==> p.context == JoinLines(DocTexts(Take(RelevantDocs(results), ListLimit)))
  {
    var relevant := RelevantDocs(results);
    if relevant != [] then ContextPrompt(question, JoinLines(DocTexts(Take(relevant, ListLimit))))
    else FallbackPrompt(question)
  }

  /** The marker put before a generated answer. */
  function AnswerPrefix(p: Prompt): string {
    if p.ContextPrompt? then DataPrefix else FallbackPrefix
  }

  /** The four ways the chain can answer. */
  datatype Route = Greeting | Confirmation | Clarification | General

  /**
   * Which way a question goes, the rules tried in a fixed order: a greeting
   * beats a confirmation, which beats the open-requests clarification, which
   * beats the general path.
   */
  function RouteOf(question: string, pending: Option<string>): (route: Route)
    ensures route == Greeting <==> HasGreeting(Normalize(question))
    ensures route == Confirmation <==>
      !HasGreeting(Normalize(question)) && IsConfirmation(Normalize(question), pending)
    ensures route == Clarification <==>
      (&& !HasGreeting(Normalize(question))
       && !IsConfirmation(Normalize(question), pending)
       && AsksForOpenRequests(Normalize(question)))
  {
    var q := Normalize(question);
    if HasGreeting(q) then Greeting
    else if IsConfirmation(q, pending) then Confirmation
    else if AsksForOpenRequests(q) then Clarification
    else General
  }

  /**
   * `custom_chain(question, pending_intent)`. A question holding a greeting
   * gets the greeting, whatever else it holds and whatever intent is pending;
   * the chain consults no service exactly on the greeting and clarification
   * routes. `AnswerConfirmation`, `AnswerClarification` and `AnswerGeneral`
   * describe the other routes.
   */
  function Answer(question: string, pending: Option<string>, o: Oracles): (r: Reply)
    ensures HasGreeting(Normalize(question)) ==> r == Reply(GreetingText, [])
    ensures r.calls == [] <==> RouteOf(question, pending) == Greeting || RouteOf(question, pending) == Clarification
  {
    match RouteOf(question, pending)
    case Greeting =>
      Reply(GreetingText, [])
    case Confirmation =>
      Reply(ConfirmationText(o.search(ConfirmQuery, ConfirmK)), [Search(ConfirmQuery, ConfirmK)])
    case Clarification =>
      Reply(ClarificationText, [])
    case General =>
      var p := GeneralPrompt(question, o.searchWithScore(question, GeneralK));
      Reply(AnswerPrefix(p) + o.generate(p), [SearchWithScore(question, GeneralK), Generate(p)])
  }

  /**
   * A confirmed intent: one search for the intent's query, and an answer made
   * of the fixed header followed by the newline-joined texts of the listed
   * documents; the header alone when every result is marked completed.
   */
  lemma AnswerConfirmation(question: string, pending: Option<string>, o: Oracles)
    requires RouteOf(question, pending) == Confirmation
    ensures var r := Answer(question, pending, o);
      var hits := o.search(ConfirmQuery, ConfirmK);
      && r.calls == [Search(ConfirmQuery, ConfirmK)]
      && IsPrefix(ConfirmHeader, r.text)
      && r.text[|ConfirmHeader|..] == JoinLines(DocTexts(ListedDocs(hits)))
      && (forall k :: 0 <= k < |ListedDocs(hits)| ==> Contains(r.text, ListedDocs(hits)[k].content))
      && ((forall i :: 0 <= i < |hits| ==> Completed(hits[i])) ==> r.text == ConfirmHeader)
  {
    var hits := o.search(ConfirmQuery, ConfirmK);
    forall k | 0 <= k < |ListedDocs(hits)|
      ensures Contains(ConfirmationText(hits), ListedDocs(hits)[k].content)
    {
      ConfirmationShowsListed(hits, k);
    }
  }

  /** The open-requests question: the fixed clarification, holding both phrases, and no service consulted. */
  lemma AnswerClarification(question: string, pending: Option<string>, o: Oracles)
    requires RouteOf(question, pending) == Clarification
    ensures var r := Answer(question, pending, o);
      && r.calls == [] && r.text == ClarificationText
      && Contains(r.text, LookingFor) && Contains(r.text, PleaseReply)
  {
    ClarificationAsksToConfirm();
  }

  /**
   * The general path: one scored search for the question itself, then one
   * generation from a prompt carrying the question. The prompt has context
   * exactly when some hit is relevant, and then holds each of the first ten
   * relevant documents; the answer is the generated text behind the data
   * marker, or behind the fallback marker when nothing is relevant.
   */
  lemma AnswerGeneral(question: string, pending: Option<string>, o: Oracles) returns (p: Prompt)
    requires RouteOf(question, pending) == General
    ensures Answer(question, pending, o).calls == [SearchWithScore(question, GeneralK), Generate(p)]
    ensures p.question == question
    ensures p.ContextPrompt? <==>
      exists i :: 0 <= i < |o.searchWithScore(question, GeneralK)| && o.searchWithScore(question, GeneralK)[i].score < Threshold
    ensures p.ContextPrompt? ==> Answer(question, pending, o).text == DataPrefix + o.generate(p)
    ensures p.FallbackPrompt? ==> Answer(question, pending, o).text == FallbackPrefix + o.generate(p)
    ensures p.ContextPrompt? ==>
      p.context == JoinLines(DocTexts(Take(RelevantDocs(o.searchWithScore(question, GeneralK)), ListLimit)))
    ensures p.ContextPrompt? ==>
      var relevant := RelevantDocs(o.searchWithScore(question, GeneralK));
      forall k :: 0 <= k < |Take(relevant, ListLimit)| ==> Contains(p.context, relevant[k].content)
  {
    var hits := o.searchWithScore(question, GeneralK);
    p := GeneralPrompt(question, hits);
    forall k | 0 <= k < |Take(RelevantDocs(hits), ListLimit)|
      ensures Contains(p.context, RelevantDocs(hits)[k].content)
    {
      ContextShowsRelevant(question, hits, k);
    }
  }

  /** How many calls of `calls` consult the language model. */
  function Generations(calls: seq<Call>): (n: nat)
    ensures n <= |calls|
    decreases |calls|
  {
    if calls == [] then 0
    else (if calls[0].Generate? then 1 else 0) + Generations(calls[1..])
  }

  /** How many calls of `calls` consult the vector store. */
  function Searches(calls: seq<Call>): (n: nat)
    ensures n <= |calls|
    decreases |calls|
  {
    if calls == [] then 0
    else (if calls[0].Search? || calls[0].SearchWithScore? then 1 else 0) + Searches(calls[1..])
  }

  lemma CountOneSearch(query: string, k: nat)
    ensures Generations([Search(query, k)]) == 0 && Searches([Search(query, k)]) == 1
  {
    assert [Search(query, k)][1..] == [];
  }

  lemma CountSearchThenGenerate(query: string, k: nat, p: Prompt)
    ensures Generations([SearchWithScore(query, k), Generate(p)]) == 1
    ensures Searches([SearchWithScore(query, k), Generate(p)]) == 1
  {
    var calls := [SearchWithScore(query, k), Generate(p)];
    assert calls[1..] == [Generate(p)];
    assert calls[1..][1..] == [];
  }

  /**
   * Greetings and the clarification consult nothing; a confirmation makes one
   * search and no generation; the general path makes one search and exactly
   * one generation.
   */
  lemma OracleUse(question: string, pending: Option<string>, o: Oracles)
    ensures var r := Answer(question, pending, o);
      && Generations(r.calls) == (if RouteOf(question, pending) == General then 1 else 0)
      && Searches(r.calls) == (if RouteOf(question, pending) in {Greeting, Clarification} then 0 else 1)
  {
    match RouteOf(question, pending)
    case Greeting =>
    case Clarification =>
    case Confirmation =>
      CountOneSearch(ConfirmQuery, ConfirmK);
    case General =>
      var p := GeneralPrompt(question, o.searchWithScore(question, GeneralK));
      CountSearchThenGenerate(question, GeneralK, p);
  }

  /** `o1` and `o2` answer call `c` alike. */
  predicate AgreeOn(o1: Oracles, o2: Oracles, c: Call) {
    match c
    case Search(query, k) => o1.search(query, k) == o2.search(query, k)
    case SearchWithScore(query, k) => o1.searchWithScore(query, k) == o2.searchWithScore(query, k)
    case Generate(p) => o1.generate(p) == o2.generate(p)
  }

  /**
   * The recorded calls are all the chain consults: services that answer
   * those calls alike give the same reply.
   */
  lemma {:induction false} TraceComplete(question: string, pending: Option<string>, o1: Oracles, o2: Oracles)
    requires forall i :: 0 <= i < |Answer(question, pending, o1).calls| ==>
      AgreeOn(o1, o2, Answer(question, pending, o1).calls[i])
    ensures Answer(question, pending, o2) == Answer(question, pending, o1)
  {
    var r := Answer(question, pending, o1);
    match RouteOf(question, pending)
    case Greeting =>
    case Clarification =>
    case Confirmation =>
      assert AgreeOn(o1, o2, r.calls[0]);
    case General =>
      assert AgreeOn(o1, o2, r.calls[0]);
      var p := GeneralPrompt(question, o1.searchWithScore(question, GeneralK));
      assert r.calls[1] == Generate(p);
      assert AgreeOn(o1, o2, r.calls[1]);
  }

  /** The clarification carries both phrases the session looks for. */
  lemma ClarificationAsksToConfirm()
    ensures Contains(ClarificationText, LookingFor)
    ensures Contains(ClarificationText, PleaseReply)
  {
    var tail := " WorkRequestIds where WRStatus is not COMPLETED? " + PleaseReply + " to confirm.";
    assert ClarificationText == "🧐 " + LookingFor + tail;
    ContainsMiddle("🧐 ", LookingFor, tail);
    var head := "🧐 " + LookingFor + " WorkRequestIds where WRStatus is not COMPLETED? ";
    assert ClarificationText == head + PleaseReply + " to confirm.";
    ContainsMiddle(head, PleaseReply, " to confirm.");
  }

  /** Every listed document's text appears in the confirmation answer. */
  lemma ConfirmationShowsListed(results: seq<Document>, k: nat)
    requires k < |ListedDocs(results)|
    ensures Contains(ConfirmationText(results), ListedDocs(results)[k].content)
  {
    var body := JoinLines(DocTexts(ListedDocs(results)));
    JoinContainsLine(DocTexts(ListedDocs(results)), k);
    ContainsAfter(ConfirmHeader, body, ListedDocs(results)[k].content);
  }

  /** Every relevant document among the first ten appears in the context prompt. */
  lemma ContextShowsRelevant(question: string, results: seq<Scored>, k: nat)
    requires k < |Take(RelevantDocs(results), ListLimit)|
    ensures GeneralPrompt(question, results).ContextPrompt?
    ensures Contains(GeneralPrompt(question, results).context, RelevantDocs(results)[k].content)
  {
    var top := Take(RelevantDocs(results), ListLimit);
    JoinContainsLine(DocTexts(top), k);
  }

  /**
   * On the general path, hits that are all at or beyond the threshold give
   * the fallback answer: the marker and the generation from the question alone.
   */
  lemma NothingRelevantFallsBack(question: string, pending: Option<string>, o: Oracles)
    requires RouteOf(question, pending) == General
    requires forall i :: 0 <= i < |o.searchWithScore(question, GeneralK)| ==>
      o.searchWithScore(question, GeneralK)[i].score >= Threshold
    ensures Answer(question, pending, o)
      == Reply(FallbackPrefix + o.generate(FallbackPrompt(question)),
               [SearchWithScore(question, GeneralK), Generate(FallbackPrompt(question))])
  {
    var hits := o.searchWithScore(question, GeneralK);
    assert GeneralPrompt(question, hits) == FallbackPrompt(question);
  }

  /** A score of exactly the threshold is not relevant: such results get the fallback answer. */
  lemma ThresholdIsStrict(question: string, pending: Option<string>, o: Oracles, d: Document)
    requires RouteOf(question, pending) == General
    requires o.searchWithScore(question, GeneralK) == [Scored(d, 2.0)]
    ensures Answer(question, pending, o)
      == Reply(FallbackPrefix + o.generate(FallbackPrompt(question)),
               [SearchWithScore(question, GeneralK), Generate(FallbackPrompt(question))])
  {
    NothingRelevantFallsBack(question, pending, o);
  }

  /**
   * A record whose status field says COMPLETED gives a whole document that
   * is never listed as open. This is about the loaded document; the index
   * holds pieces of documents, and the model takes each record to stay in
   * one piece.
   */
  lemma CompletedRecordNotListed(r: Record, i: nat, results: seq<Document>)
    requires i < |r| && r[i] == Field("WRStatus", "COMPLETED")
    ensures Completed(Document(Flatten(r)))
    ensures Document(Flatten(r)) !in ListedDocs(results)
  {
    FlattenHasField(r, i);
    assert FieldLine(r[i]) == CompletedMarker;
  }
}
