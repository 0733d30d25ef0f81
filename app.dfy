/**
 * The chat session of the user interface: the message history, the pending
 * intent left by a clarification question, and the edit flags. Widgets become
 * inputs: a press of the edit button, the text of the edit box with a press of
 * "Save & Regenerate", and the text of the chat input.
 *
 * The transitions are first given as functions on `SessionState`, so that
 * properties of several turns can be stated; the class `Session` then performs
 * them in place on its fields.
 */
module App {
  import opened Wrappers
  import opened Text
  import opened Chain

  datatype Role = User | Assistant

  /** One entry of `chat_history`: `{"role": ..., "content": ...}`. */
  datatype Message = Message(role: Role, content: string)

  /** The four session fields. `editIndex` is -1 when no message is being edited. */
  datatype SessionState = SessionState(
    history: seq<Message>,
    pending: Option<string>,
    editMode: bool,
    editIndex: int)

  /** The session as the first run of the page creates it. */
  const Initial: SessionState := SessionState([], None, false, -1)

  /** The index of the last user message, or -1 when there is none. */
  function LastUserIndexOf(h: seq<Message>): (idx: int)
    ensures -1 <= idx < |h|
    ensures idx >= 0 ==> h[idx].role == User
    ensures forall j :: idx < j < |h| ==> h[j].role != User
    decreases |h|
  {
    if h == [] then -1
    else if h[|h| - 1].role == User then |h| - 1
    else LastUserIndexOf(h[..|h| - 1])
  }

  /** The backward scan of the page for the last user message. */
  method LastUserIndex(h: seq<Message>) returns (idx: int)
    ensures idx == LastUserIndexOf(h)
  {
    idx := -1;
    for i := |h| downto 0
      invariant idx == -1
      invariant forall j :: i <= j < |h| ==> h[j].role != User
    {
      if h[i].role == User {
        idx := i;
        break;
      }
    }
    LastUserIndexUnique(h, idx);
  }

  /** The three properties of `LastUserIndexOf` pin it down. */
  lemma {:induction false} LastUserIndexUnique(h: seq<Message>, idx: int)
    requires -1 <= idx < |h|
    requires idx >= 0 ==> h[idx].role == User
    requires forall j :: idx < j < |h| ==> h[j].role != User
    ensures idx == LastUserIndexOf(h)
    decreases |h|
  {
    if h != [] && h[|h| - 1].role != User {
      assert idx != |h| - 1;
      LastUserIndexUnique(h[..|h| - 1], idx);
    }
  }

  /** The edit form is shown and the chat input is not. */
  predicate EditActive(s: SessionState) {
    s.editMode && s.editIndex != -1
  }

  /**
   * The chat input is shown, because the edit form is not, and it delivered
   * a text. The walrus test of the page lets an empty text through no more
   * than a missing one.
   */
  predicate Accepts(s: SessionState, prompt: string) {
    !EditActive(s) && prompt != ""
  }

  /** The edit button is shown, under the last user message. */
  predicate EditOffered(s: SessionState) {
    !s.editMode && LastUserIndexOf(s.history) != -1
  }

  /** `prompt.strip().lower() == "yes"`. */
  predicate IsYes(prompt: string) {
    Normalize(prompt) == "yes"
  }

  /** Python's truth value of the pending-intent slot. */
  predicate Truthy(pending: Option<string>) {
    pending.Some? && pending.value != ""
  }

  /** The test the page applies to an answer to spot a clarification question. */
  predicate AsksConfirmation(response: string) {
    Contains(response, LookingFor) && Contains(response, PleaseReply)
  }

  /** `edit_index` names a message, or is -1. */
  predicate WellIndexed(s: SessionState) {
    s.editIndex == -1 || 0 <= s.editIndex < |s.history|
  }

  /** A press of the edit button (no change when the button is not shown). */
  function AfterEditClick(s: SessionState): (t: SessionState)
    ensures EditOffered(s) ==> t.editMode && t.editIndex == LastUserIndexOf(s.history)
    ensures t.history == s.history && t.pending == s.pending
    ensures !EditOffered(s) ==> t == s
  {
    if EditOffered(s) then s.(editMode := true, editIndex := LastUserIndexOf(s.history)) else s
  }

  /**
   * "Save & Regenerate" with the text of the edit box: the history loses the
   * edited message and everything after it, gains the edited message and the
   * chain's answer to it (asked without a pending intent), and the edit flags
   * are reset. The pending intent is left as it was. Without the edit form
   * there is no button, and nothing changes.
   */
  function AfterSaveRegenerate(s: SessionState, edited: string, o: Oracles): (t: SessionState)
    requires WellIndexed(s)
    ensures !EditActive(s) ==> t == s
    ensures EditActive(s) ==>
      && |t.history| == s.editIndex + 2
      && t.history[..s.editIndex] == s.history[..s.editIndex]
      && t.history[s.editIndex] == Message(User, edited)
      && t.history[s.editIndex + 1] == Message(Assistant, Answer(edited, None, o).text)
      && t.pending == s.pending && !t.editMode && t.editIndex == -1
  {
    if EditActive(s) then
      var kept := s.history[..s.editIndex] + [Message(User, edited)];
      SessionState(kept + [Message(Assistant, Answer(edited, None, o).text)], s.pending, false, -1)
    else s
  }

  /** The chain's answer to a new chat input. */
  function ResponseTo(s: SessionState, prompt: string, o: Oracles): string {
    if IsYes(prompt) && Truthy(s.pending) then Answer(prompt, s.pending, o).text
    else Answer(prompt, None, o).text
  }

  /** The pending intent after a chat input and the answer it got. */
  function NextPending(s: SessionState, prompt: string, response: string): Option<string> {
    if IsYes(prompt) && Truthy(s.pending) then None
    else if AsksConfirmation(response) then Some(NotCompletedIntent)
    else None
  }

  /**
   * A new chat input: the question and then the chain's answer are appended
   * to the history, which is otherwise kept, and the pending intent is
   * updated; `InputTurn` states how.
   */
  function AfterInput(s: SessionState, prompt: string, o: Oracles): (t: SessionState)
    ensures |s.history| <= |t.history| && t.history[..|s.history|] == s.history
    ensures t.editMode == s.editMode && t.editIndex == s.editIndex
  {
    if !Accepts(s, prompt) then s
    else
      var response := ResponseTo(s, prompt, o);
      var exchange := [Message(User, prompt), Message(Assistant, response)];
      SessionState(s.history + exchange, NextPending(s, prompt, response), s.editMode, s.editIndex)
  }

  /**
   * A chat input appends the user message and then the answer. A "yes" with
   * a pending intent hands the intent to the chain and clears it; any other
   * input is asked without an intent, and the intent is set exactly when the
   * answer is a clarification question. While the edit form is shown there
   * is no chat input, and an empty input is ignored: nothing changes.
   */
  lemma InputTurn(s: SessionState, prompt: string, o: Oracles)
    ensures !Accepts(s, prompt) ==> AfterInput(s, prompt, o) == s
    ensures Accepts(s, prompt) ==>
      var t := AfterInput(s, prompt, o);
      && |t.history| == |s.history| + 2
      && t.history[..|s.history|] == s.history
      && t.history[|s.history|] == Message(User, prompt)
      && t.history[|s.history| + 1] == Message(Assistant, ResponseTo(s, prompt, o))
      && t.editMode == s.editMode && t.editIndex == s.editIndex
    ensures Accepts(s, prompt) && IsYes(prompt) && Truthy(s.pending) ==>
      && ResponseTo(s, prompt, o) == Answer(prompt, s.pending, o).text
      && AfterInput(s, prompt, o).pending == None
    ensures Accepts(s, prompt) && !(IsYes(prompt) && Truthy(s.pending)) ==>
      var t := AfterInput(s, prompt, o);
      && ResponseTo(s, prompt, o) == Answer(prompt, None, o).text
      && (t.pending == Some(NotCompletedIntent) <==> AsksConfirmation(ResponseTo(s, prompt, o)))
      && (t.pending != Some(NotCompletedIntent) ==> t.pending == None)
  {
  }

  /** The state a chat input leads to, given the answer and the intent it leaves. */
  lemma InputStep(s: SessionState, prompt: string, o: Oracles, response: string, next: Option<string>)
    requires Consistent(s) && Accepts(s, prompt)
    requires response == ResponseTo(s, prompt, o) && next == NextPending(s, prompt, response)
    ensures AfterInput(s, prompt, o)
      == SessionState(s.history + [Message(User, prompt)] + [Message(Assistant, response)], next, s.editMode, s.editIndex)
    ensures Consistent(AfterInput(s, prompt, o))
  {
    assert [Message(User, prompt), Message(Assistant, response)] == [Message(User, prompt)] + [Message(Assistant, response)];
    InputKeepsConsistent(s, prompt, o);
  }

  /** Users and assistant take turns, the user first, in whole exchanges. */
  predicate Alternating(h: seq<Message>) {
    && |h| % 2 == 0
    && forall i :: 0 <= i < |h| ==> h[i].role == (if i % 2 == 0 then User else Assistant)
  }

  /**
   * What the page keeps true between runs: whole exchanges in the history,
   * the edit flag set exactly when an index is held, that index the last user
   * message, and no intent but the one the chain knows.
   */
  predicate Consistent(s: SessionState) {
    && Alternating(s.history)
    && (s.editMode <==> s.editIndex != -1)
    && (s.editIndex != -1 ==> s.editIndex == LastUserIndexOf(s.history))
    && (s.pending == None || s.pending == Some(NotCompletedIntent))
  }

  /** In a history of whole exchanges the last user message opens the last exchange. */
  lemma AlternatingLastUser(h: seq<Message>)
    requires Alternating(h)
    ensures LastUserIndexOf(h) == if h == [] then -1 else |h| - 2
  {
    if h != [] {
      assert h[|h| - 1].role == Assistant;
      var init := h[..|h| - 1];
      assert init[|init| - 1] == h[|h| - 2];
    }
  }

  /** Appending a whole exchange keeps the history in whole exchanges. */
  lemma AlternatingAppend(h: seq<Message>, question: string, response: string)
    requires Alternating(h)
    ensures Alternating(h + [Message(User, question), Message(Assistant, response)])
  {
    var h' := h + [Message(User, question), Message(Assistant, response)];
    assert forall i :: 0 <= i < |h| ==> h'[i] == h[i];
  }

  /** Cutting a history at an exchange boundary leaves whole exchanges. */
  lemma AlternatingPrefix(h: seq<Message>, n: nat)
    requires Alternating(h) && n <= |h| && n % 2 == 0
    ensures Alternating(h[..n])
  {
  }

  lemma InitialConsistent()
    ensures Consistent(Initial) && WellIndexed(Initial)
  {
  }

  /** A consistent session holds a usable edit index. */
  lemma ConsistentWellIndexed(s: SessionState)
    requires Consistent(s)
    ensures WellIndexed(s)
  {
  }

  /** The edit button opens an edit of the last exchange's question. */
  lemma EditClickKeepsConsistent(s: SessionState)
    requires Consistent(s)
    ensures Consistent(AfterEditClick(s))
    ensures EditOffered(s) ==> AfterEditClick(s).editIndex == |s.history| - 2
  {
    if EditOffered(s) {
      AlternatingLastUser(s.history);
    }
  }

  /**
   * "Save & Regenerate" replaces the last exchange and nothing before it; the
   * history keeps its length and the session stays consistent.
   */
  lemma {:induction false} SaveRegenerateKeepsConsistent(s: SessionState, edited: string, o: Oracles)
    requires Consistent(s)
    ensures WellIndexed(s)
    ensures Consistent(AfterSaveRegenerate(s, edited, o))
    ensures EditActive(s) ==>
      var t := AfterSaveRegenerate(s, edited, o);
      && |t.history| == |s.history|
      && t.history[..|s.history| - 2] == s.history[..|s.history| - 2]
  {
    if EditActive(s) {
      AlternatingLastUser(s.history);
      var n := |s.history|;
      var kept := s.history[..n - 2];
      AlternatingPrefix(s.history, n - 2);
      var response := Answer(edited, None, o).text;
      AlternatingAppend(kept, edited, response);
      assert AfterSaveRegenerate(s, edited, o).history
        == kept + [Message(User, edited), Message(Assistant, response)];
    }
  }

  /** A chat input adds one whole exchange and keeps the session consistent. */
  lemma {:induction false} InputKeepsConsistent(s: SessionState, prompt: string, o: Oracles)
    requires Consistent(s)
    ensures Consistent(AfterInput(s, prompt, o))
  {
    if Accepts(s, prompt) {
      AlternatingAppend(s.history, prompt, ResponseTo(s, prompt, o));
    }
  }

  /** The session as the class holds it in place. */
  class Session {
    var history: seq<Message>
    var pending: Option<string>
    var editMode: bool
    var editIndex: int
    /** The chain built once, when the page first loads. */
    const oracles: Oracles

    ghost function State(): SessionState
      reads this
    {
      SessionState(history, pending, editMode, editIndex)
    }

    ghost predicate Valid()
      reads this
    {
      Consistent(State())
    }

    /** The first run of the page: empty history, no intent, not editing. */
    constructor (o: Oracles)
      ensures Valid() && State() == Initial && oracles == o
    {
      history := [];
      editMode := false;
      pending := None;
      editIndex := -1;
      oracles := o;
    }

    /** A press of the edit button under the last user message. */
    method PressEdit()
      requires Valid()
      modifies this
      ensures Valid()
      ensures State() == AfterEditClick(old(State()))
    {
      EditClickKeepsConsistent(State());
      var last := LastUserIndex(history);
      if last != -1 && !editMode {
        editMode := true;
        editIndex := last;
      }
    }

    /** A press of "Save & Regenerate" with the edited question. */
    method SaveAndRegenerate(edited: string)
      requires Valid()
      modifies this
      ensures Valid()
      ensures State() == AfterSaveRegenerate(old(State()), edited, oracles)
    {
      SaveRegenerateKeepsConsistent(State(), edited, oracles);
      if editMode && editIndex != -1 {
        history := history[..editIndex];
        history := history + [Message(User, edited)];
        var response := Answer(edited, None, oracles).text;
        history := history + [Message(Assistant, response)];
        editMode := false;
        editIndex := -1;
      }
    }

    /** A question typed into the chat input. */
    method SubmitInput(prompt: string)
      requires Valid()
      modifies this
      ensures Valid()
      ensures State() == AfterInput(old(State()), prompt, oracles)
    {
      ghost var s := State();
      if !(editMode && editIndex != -1) && prompt != "" {
        history := history + [Message(User, prompt)];
        var response, next := Respond(prompt, pending, oracles);
        pending := next;
        history := history + [Message(Assistant, response)];
        InputStep(s, prompt, oracles, response, next);
      }
    }
  }

  /**
   * The answer to a chat input and the pending intent it leaves: a "yes" with
   * a pending intent is answered with that intent, which is then cleared; any
   * other input is answered without an intent, and the intent is set exactly
   * when the answer is a clarification question.
   */
  method Respond(prompt: string, pending: Option<string>, o: Oracles) returns (response: string, next: Option<string>)
    ensures IsYes(prompt) && Truthy(pending) ==> response == Answer(prompt, pending, o).text && next == None
    ensures !(IsYes(prompt) && Truthy(pending)) ==>
      && response == Answer(prompt, None, o).text
      && (next == Some(NotCompletedIntent) <==> AsksConfirmation(response))
      && (next != Some(NotCompletedIntent) ==> next == None)
  {
    if IsYes(prompt) && Truthy(pending) {
      response := Answer(prompt, pending, o).text;
      next := None;
    } else {
      response := Answer(prompt, None, o).text;
      if AsksConfirmation(response) {
        next := Some(NotCompletedIntent);
      } else {
        next := None;
      }
    }
  }
}
