# Policy-data chatbot: router, record loader and chat session

This project models the decision logic of a small retrieval chatbot over a
dataset of policy work requests. It has three parts:

- **Record loading** (`Loader`). Each dataset record becomes one document
  whose text is the record's `key: value` lines joined by newlines.
- **The question router and response composer** (`Chain`). A question and
  the pending intent go in and one answer string comes out. The rules are
  tried in a fixed order:
  1. a greeting phrase anywhere in the trimmed, lower-cased question gets the
     canned greeting;
  2. a plain "yes" while the open-requests intent is pending gets the list of
     work requests not completed: a search with k = 15, documents marked
     `WRStatus: COMPLETED` dropped, the first ten kept;
  3. a question naming `wrstatus` and `not completed` gets a clarification
     question;
  4. anything else gets a scored search with k = 10 (hits with a distance
     strictly below 2.0 count as relevant) and one generation, with the
     relevant documents as context or with the fallback prompt.
- **The chat session** (`App`). It holds the message history, the
  pending-intent slot and the edit flags. Its operations are:
  - the backward scan for the last user message;
  - the edit button;
  - "Save & Regenerate";
  - a new chat input, which appends the question and the answer and sets or
    clears the pending intent by looking at the answer's text.

The vector store's two searches and the language model are oracles: function
fields of the `Oracles` value handed to the chain. Every `Reply` records the
oracle calls made to produce it, so "nothing was searched" and "exactly one
generation" are properties of the reply. The session transitions are defined
as functions on `SessionState`, so properties of several turns can be stated.
The class `App.Session` then performs the same transitions in place, and each
of its methods is proved equal to its function. `Scenarios` works through
whole conversations.

Two points where the model follows what the code does rather than what the
design intends:

- **The pending intent can go stale.** The pending intent is meant to reflect
  only the most recent assistant turn. The edit path of the page never
  touches it. If a clarification is edited into another question, the old
  intent survives, and a later "yes" still lists the open requests
  (`Scenarios.StaleIntentAfterEdit`).
- **The session sets the intent, not the chain.** The answer composer does
  not set the intent. The page sets it by searching the answer's text for two
  phrases, and the page clears it as well.

To check the proofs, give every `.dfy` file to one command:
`dafny verify --resource-limit 2000000 --verification-time-limit 0 *.dfy`.
The string lemmas are bounded by resource count, not by time, so the default
30-second limit per batch can stop some of them on a slow machine.

## Model

`App.ResponseTo` and `App.NextPending` compute the answer and the next
intent of a chat input. They have no contract of their own: `App.InputTurn`
states what they give, and `App.Respond` performs the same branch as a method.

| member | source | states |
|---|---|---|
| Loader.LoadDocs | rag_chain.py:14-18 | one document per record, in record order, each holding that record's flattened text |
| Loader.Flatten | rag_chain.py:16 | an empty record gives the empty text; a one-field record gives its single `key: value` line |
| Loader.FieldLines | rag_chain.py:16 | one line per field, in field order, each the `key: value` rendering of its field |
| Loader.FlattenSplit | rag_chain.py:16 | splitting a flattened record at newlines gives back its field lines, if no key or value holds a newline |
| Loader.FlattenHasField | rag_chain.py:16 | every field's `key: value` line occurs in the record's text |
| Text.JoinLines | rag_chain.py:16 | joining no lines gives the empty text; joining one line gives that line |
| Text.SplitJoin | rag_chain.py:16 | splitting a newline-join of newline-free lines gives back the lines |
| Text.JoinSplit | rag_chain.py:16 | joining the pieces of a split gives back the text |
| Text.JoinContainsLine | rag_chain.py:59 | every joined line occurs in the joined text |
| Text.Strip | rag_chain.py:49 | the stripped text neither starts nor ends with white space and is no longer than the input |
| Text.StripIsTrim | rag_chain.py:49 | the stripped text is a slice of the input, and everything cut from its two ends is white space |
| Text.Lower | rag_chain.py:49 | same length; each character lower-cased in place |
| Lists.Filter | rag_chain.py:58 | every kept element passes and comes from the input, every passing element is kept, and the kept ones stay in their original order (a subsequence) |
| Lists.FilterCounts | rag_chain.py:58 | each passing element is kept as often as it occurs in the input, and no failing element is kept |
| Lists.FilterEmpty | rag_chain.py:58 | the filter keeps nothing if and only if no element passes |
| Lists.Take | rag_chain.py:59 | the slice `[:n]` is the prefix of length min(n, length) |
| Chain.ListedDocs | rag_chain.py:57-59 | the first ten search results not marked completed, in search order; none of them is marked; empty exactly when every result is marked; all unmarked results appear when ten or fewer exist |
| Chain.ConfirmationText | rag_chain.py:56-60 | the confirmation answer starts with the fixed header, and is exactly the header when every result is marked completed |
| Chain.ConfirmationShowsListed | rag_chain.py:58-60 | every listed document's text occurs in the confirmation answer |
| Chain.CompletedRecordNotListed | rag_chain.py:16 | a record with the field `WRStatus: COMPLETED` gives a marked document, which is never listed |
| Chain.RelevantDocs | rag_chain.py:68-70 | a document is relevant if and only if some hit carries it with a distance strictly below 2.0; none is relevant exactly when every distance is at least 2.0 |
| Chain.RelevantIsFilter | rag_chain.py:70 | the relevant documents are the documents of the hits that pass the threshold, in result order |
| Chain.NothingRelevantFallsBack | rag_chain.py:67-87 | on the general path, when every hit is at a distance of 2.0 or more, the answer is the fallback marker followed by the generation from the question alone, after one scored search and one generation |
| Chain.ThresholdIsStrict | rag_chain.py:69-70 | a hit at a distance of exactly 2.0 is not relevant, so the answer uses the fallback prompt |
| Chain.GeneralPrompt | rag_chain.py:72-86 | the prompt carries the question, and has context if and only if some hit is relevant; the context is then the newline-join of the texts of the first ten relevant hits, so hits at a distance of 2.0 or more never reach the model |
| Chain.ContextShowsRelevant | rag_chain.py:72-74 | every one of the first ten relevant documents occurs in the context prompt |
| Chain.RouteOf | rag_chain.py:49-65 | the route is fixed by the normalised question, in order: greeting, then confirmation, then clarification, then general |
| Chain.Answer | rag_chain.py:48-87 | a question holding a greeting gets exactly the greeting with no service consulted, whatever the intent; no service is consulted exactly on the greeting and clarification routes |
| Chain.AnswerConfirmation | rag_chain.py:56-60 | a confirmed intent makes one search for the intent's query; the answer is the header followed by the newline-join of the listed documents' texts, holds every listed document, and is the bare header when every result is marked completed |
| Chain.AnswerClarification | rag_chain.py:63-65 | the open-requests question gets the fixed clarification, which holds both confirmation phrases, and consults no service |
| Chain.AnswerGeneral | rag_chain.py:67-87 | one scored search for the raw question, then one generation from a prompt carrying the question; the prompt has context exactly when some hit is relevant, and the context is then the newline-join of the texts of the first ten relevant documents and of nothing else; the answer is the generated text behind the data marker, or behind the fallback marker when nothing is relevant |
| Chain.OracleUse | rag_chain.py:48-87 | greetings and clarifications consult nothing; a confirmation makes one search and no generation; the general path makes one search and exactly one generation |
| Chain.TraceComplete | rag_chain.py:48-87 | the recorded calls are everything the answer depends on: services that agree on them give the same reply |
| Chain.ClarificationAsksToConfirm | rag_chain.py:63-65 | the clarification contains both phrases the session looks for |
| App.LastUserIndexOf | app.py:54-58 | -1 or the index of a user message, with no user message after it |
| App.LastUserIndex | app.py:54-58 | the backward scan with `break` finds the last user message |
| App.LastUserIndexUnique | app.py:54-58 | the three properties of the scan's result determine it |
| App.AfterEditClick | app.py:66-71 | the button appears only while not editing and under the last user message; pressing it sets the edit flag and that index, and changes nothing else |
| App.AfterSaveRegenerate | app.py:75-96 | the history is cut at the edit index; the edited question is appended, then the chain's answer to it without an intent; the flags are reset; the intent is untouched; without the edit form nothing changes |
| App.AfterInput | app.py:100-116 | a chat input never rewrites the earlier history and never touches the edit flags |
| App.InputTurn | app.py:100-116 | while the edit form is shown, or when the input is empty, nothing changes; otherwise the question and then the answer are appended with the earlier history unchanged; a "yes" with an intent hands the intent to the chain and clears it; otherwise the intent is set if and only if the answer holds both phrases, and is cleared when not |
| App.InputStep | app.py:100-116 | the state reached by appending the question, then computing answer and intent, then appending the answer is the input transition, and it is consistent |
| App.Respond | app.py:105-113 | the answer and intent of a chat input, as in `InputTurn` |
| App.AlternatingLastUser | app.py:54-58 | in a history of whole exchanges the last user message is second from the end |
| App.InitialConsistent | app.py:17-28 | the first session state has whole exchanges, no edit and no intent |
| App.ConsistentWellIndexed | app.py:75-76 | in a consistent session the edit index names a message |
| App.EditClickKeepsConsistent | app.py:66-71 | the edit button keeps the session consistent and selects the question of the last exchange |
| App.SaveRegenerateKeepsConsistent | app.py:79-96 | regeneration keeps the session consistent and replaces only the last exchange |
| App.InputKeepsConsistent | app.py:100-116 | a chat input keeps the session consistent |
| App.Session.constructor | app.py:17-28 | empty history, no intent, edit flag off, edit index -1 |
| App.Session.PressEdit | app.py:66-72 | the in-place edit button performs `AfterEditClick` and keeps the session consistent |
| App.Session.SaveAndRegenerate | app.py:79-97 | in-place truncation and appends perform `AfterSaveRegenerate` and keep the session consistent |
| App.Session.SubmitInput | app.py:100-118 | the in-place appends and intent update perform `AfterInput` and keep the session consistent |
| Scenarios.NoGreetingWithout | rag_chain.py:51-52 | a question without the letters `h` and `g` holds no greeting |
| Scenarios.YesIsPlain | app.py:105 | a "yes" is not empty, and is neither a greeting nor a question about open requests |
| Scenarios.NormalizedAlready | rag_chain.py:49 | lower-case text without surrounding white space is its own normal form |
| Scenarios.GreetingBeatsIntent | rag_chain.py:52-65 | "hi wrstatus not completed" both greets and asks about open requests, and gets the greeting |
| Scenarios.ClarifyTurn | app.py:108-111 | a question answered with the clarification sets the intent |
| Scenarios.ConfirmTurn | app.py:105-107 | with the intent set, a "yes" gets the listing and clears the intent |
| Scenarios.ClarifyThenConfirm | app.py:105-113 | clarification and then "yes" give the listing, with the intent set in between and cleared after |
| Scenarios.CompletedRequestExample | rag_chain.py:56-60 | with one completed record in the data, clarification and then "yes" answer with the bare header |
| Scenarios.HelloGreets | rag_chain.py:51-53 | "hello" takes the greeting route |
| Scenarios.GreetingAsksNothing | app.py:110-113 | the greeting holds neither confirmation phrase, so it sets no intent |
| Scenarios.StaleIntentAfterEdit | app.py:79-97 | editing a question into a greeting leaves the intent set after an answer that asks nothing, and a later "yes" still gets the listing |

## Left out

- Reading the dataset (`open`, `json.load`) is I/O. The records arrive as sequences of key and value strings in object order. Every value is taken as the text `str` renders for it. Keys are not required to be distinct.
- `create_vectorstore`, the text splitter, the embeddings and the FAISS index are foreign libraries. The two searches are oracles, and distances are reals with no embedding arithmetic.
- The language model and its prompt templates are foreign. Generation is an oracle applied to a `Prompt`, and the two templates are told apart only as context prompt versus fallback prompt.
- Text.Lower: lower-cases only the ASCII letters `A`-`Z`, not Python's full Unicode `str.lower`.
- Text.IsSpace: follows Python's `str.isspace` character set as listed in the file. Unicode character tables beyond that list are not modelled.
- Raised exceptions are not modelled. That covers failing searches, generation errors and a malformed dataset, none of which the code handles. The whole-exchange invariant `App.Consistent` relies on this. The page appends the question before the chain runs, so a failing search or generation would leave a lone user message. That state breaks `App.AlternatingLastUser` and the choice of the second-to-last message in `App.EditClickKeepsConsistent`.
- The index holds chunks of the loaded documents: pieces of at most 500 characters that overlap by 100. Searches return those chunks. The model takes every search hit to be a whole loaded document.
- Chain.CompletedRecordNotListed: is about whole documents, so it covers records short enough to stay in one chunk. In the code a longer completed record can still be listed, through a chunk that lacks its `WRStatus: COMPLETED` line. Scenarios.CompletedRequestExample makes the same assumption.
- The chain is built once per process behind `st.cache_resource`. Here it is the `oracles` constant of a session.
- Streamlit rendering is not modelled: the CSS, the chat bubbles, the spinners and `st.rerun`. Button presses and text boxes become method parameters. The edit box starts with the original question, and that text arrives as the `edited` parameter.
- Scenarios.CompletedRequestExample: states the dataset example for any question that gets the clarification. It does not work through the concrete question "Any WRStatus not completed?" itself.
