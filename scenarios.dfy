/**
 * Conversations worked through the model: the priority of greetings, the
 * clarify-then-confirm exchange, the dataset example with a completed work
 * request, the strict relevance threshold, and an intent that outlives an edit.
 */
module Scenarios {
  import opened Wrappers
  import opened Text
  import opened Lists
  import opened Loader
  import opened Chain
  import opened App

  /** Every greeting phrase starts with `h` or `g`. */
  lemma NoGreetingWithout(q: string)
    requires 'h' !in q && 'g' !in q
    ensures !HasGreeting(q)
  {
    forall g | g in Greetings ensures !Contains(q, g) {
      if Contains(q, g) {
        ContainsFirstChar(q, g);
      }
    }
  }

  /** "yes", whatever surrounds it, is not a greeting and not about open requests. */
  lemma YesIsPlain(prompt: string)
    requires IsYes(prompt)
    ensures prompt != ""
    ensures !HasGreeting(Normalize(prompt))
    ensures !AsksForOpenRequests(Normalize(prompt))
  {
    NoGreetingWithout("yes");
    if Contains("yes", "wrstatus") {
      ContainsLength("yes", "wrstatus");
    }
  }

  /** Lower-case text without white space at its ends is already normalised. */
  lemma NormalizedAlready(q: string)
    requires q != [] ==> !IsSpace(q[0]) && !IsSpace(q[|q| - 1])
    requires forall i :: 0 <= i < |q| ==> !('A' <= q[i] <= 'Z')
    ensures Normalize(q) == q
  {
    StripUnchanged(q);
  }

  lemma ExampleNormalized(question: string)
    requires question == "hi wrstatus not completed"
    ensures Normalize(question) == question
  {
    assert forall i :: 0 <= i < |question| ==> question[i] in question;
    NormalizedAlready(question);
  }

  lemma ExampleGreets(q: string)
    requires q == "hi wrstatus not completed"
    ensures HasGreeting(q)
  {
    ContainsPiece(q, "", "hi", " wrstatus not completed");
    assert Greetings[0] == "hi";
  }

  /** A text cut into three pieces contains its middle piece. */
  lemma ContainsPiece(q: string, a: string, b: string, c: string)
    requires q == a + b + c
    ensures Contains(q, b)
  {
    ContainsMiddle(a, b, c);
  }

  /**
   * A question can both greet and ask about open requests; the greeting is
   * checked first, so such a question gets the greeting.
   */
  lemma GreetingBeatsIntent(question: string, pending: Option<string>, o: Oracles)
    requires question == "hi wrstatus not completed"
    ensures HasGreeting(Normalize(question)) && AsksForOpenRequests(Normalize(question))
    ensures Answer(question, pending, o) == Reply(GreetingText, [])
  {
    ExampleNormalized(question);
    ExampleGreets(question);
    ExampleAsks(question);
  }

  lemma ExampleAsks(q: string)
    requires q == "hi wrstatus not completed"
    ensures AsksForOpenRequests(q)
  {
    ContainsPiece(q, "hi ", "wrstatus", " not completed");
    ContainsPiece(q, "hi wrstatus ", "not completed", "");
  }

  /** A question that gets the clarification sets the intent. */
  lemma ClarifyTurn(s: SessionState, question: string, o: Oracles)
    requires Consistent(s) && !EditActive(s)
    requires RouteOf(question, None) == Clarification
    ensures var t := AfterInput(s, question, o);
      && t.history[|t.history| - 1] == Message(Assistant, ClarificationText)
      && t.pending == Some(NotCompletedIntent)
      && Consistent(t) && !EditActive(t)
  {
    if IsYes(question) {
      YesIsPlain(question);
      assert false;
    }
    ContainsLength(Normalize(question), "wrstatus");
    assert question != "";
    InputTurn(s, question, o);
    ClarificationAsksToConfirm();
    InputKeepsConsistent(s, question, o);
  }

  /** With the intent set, a "yes" gets the listing of open work requests and clears the intent. */
  lemma ConfirmTurn(t: SessionState, yes: string, o: Oracles)
    requires Consistent(t) && !EditActive(t) && t.pending == Some(NotCompletedIntent)
    requires IsYes(yes)
    ensures var u := AfterInput(t, yes, o);
      && u.history[|u.history| - 1] == Message(Assistant, ConfirmationText(o.search(ConfirmQuery, ConfirmK)))
      && u.pending == None
  {
    YesIsPlain(yes);
    assert RouteOf(yes, t.pending) == Confirmation;
    InputTurn(t, yes, o);
  }

  /**
   * A clarification question sets the intent, and a "yes" to it gets the
   * listing of open work requests and clears the intent again.
   */
  lemma ClarifyThenConfirm(s: SessionState, question: string, yes: string, o: Oracles)
    requires Consistent(s) && !EditActive(s)
    requires RouteOf(question, None) == Clarification
    requires IsYes(yes)
    ensures var t := AfterInput(s, question, o);
      && t.history[|t.history| - 1] == Message(Assistant, ClarificationText)
      && t.pending == Some(NotCompletedIntent)
    ensures var u := AfterInput(AfterInput(s, question, o), yes, o);
      && u.history[|u.history| - 1] == Message(Assistant, ConfirmationText(o.search(ConfirmQuery, ConfirmK)))
      && u.pending == None
  {
    ClarifyTurn(s, question, o);
    ConfirmTurn(AfterInput(s, question, o), yes, o);
  }

  /**
   * The dataset holds one completed work request. A question that gets the
   * clarification sets the intent; confirming it gets the header alone,
   * since the only document found reports the request completed. The search
   * returns the record's whole document, as it does when the record is short
   * enough to be indexed in one piece.
   */
  lemma CompletedRequestExample(question: string, yes: string, o: Oracles)
    requires RouteOf(question, None) == Clarification && IsYes(yes)
    requires o.search(ConfirmQuery, ConfirmK)
      == [Document(Flatten([Field("WorkRequestId", "WR1"), Field("WRStatus", "COMPLETED")]))]
    ensures var t := AfterInput(Initial, question, o);
      && t.history == [Message(User, question), Message(Assistant, ClarificationText)]
      && t.pending == Some(NotCompletedIntent)
    ensures var u := AfterInput(AfterInput(Initial, question, o), yes, o);
      && u.history[3] == Message(Assistant, ConfirmHeader)
      && u.pending == None
  {
    InitialConsistent();
    ClarifyThenConfirm(Initial, question, yes, o);
    InputTurn(Initial, question, o);
    var t := AfterInput(Initial, question, o);
    assert t.history == t.history[..0] + [t.history[0], t.history[1]];
    var record := [Field("WorkRequestId", "WR1"), Field("WRStatus", "COMPLETED")];
    CompletedRecordNotListed(record, 1, o.search(ConfirmQuery, ConfirmK));
    InputTurn(t, yes, o);
  }

  lemma HelloNormalized(edited: string)
    requires edited == "hello"
    ensures Normalize(edited) == edited
  {
    assert forall i :: 0 <= i < |edited| ==> edited[i] in edited;
    NormalizedAlready(edited);
  }

  lemma HelloHasGreeting(q: string)
    requires q == "hello"
    ensures HasGreeting(q)
  {
    ContainsMiddle("", q, "");
    assert "" + q + "" == q;
    assert Greetings[1] == q;
  }

  /** "hello" is a greeting. */
  lemma HelloGreets(edited: string)
    requires edited == "hello"
    ensures RouteOf(edited, None) == Greeting
  {
    HelloNormalized(edited);
    HelloHasGreeting(edited);
  }

  lemma GreetingPieces()
    ensures GreetingText == "😊 👋 " + "Hello! How " + "can I assist " + "you today?"
  {
  }

  lemma GreetingHeadLacksA()
    ensures 'A' !in "😊 👋 " && 'A' !in "Hello! How "
  {
  }

  lemma GreetingTailLacksA()
    ensures 'A' !in "can I assist " && 'A' !in "you today?"
  {
  }

  /** The greeting asks nothing of the user. */
  lemma GreetingAsksNothing()
    ensures !AsksConfirmation(GreetingText)
  {
    if Contains(GreetingText, LookingFor) {
      ContainsFirstChar(GreetingText, LookingFor);
      GreetingPieces();
      GreetingHeadLacksA();
      GreetingTailLacksA();
      assert false;
    }
  }

  /**
   * The edit path never touches the pending intent: after a clarification,
   * editing the question into a greeting (such as "hello", by `HelloGreets`)
   * leaves the intent set although the last answer no longer asks anything,
   * and a following "yes" still gets the listing of open work requests.
   */
  lemma StaleIntentAfterEdit(s: SessionState, edited: string, yes: string, o: Oracles)
    requires Consistent(s) && EditActive(s) && s.pending == Some(NotCompletedIntent)
    requires RouteOf(edited, None) == Greeting && IsYes(yes)
    ensures var t := AfterSaveRegenerate(s, edited, o);
      && t.history[|t.history| - 1] == Message(Assistant, GreetingText)
      && !AsksConfirmation(GreetingText)
      && t.pending == Some(NotCompletedIntent)
    ensures var u := AfterInput(AfterSaveRegenerate(s, edited, o), yes, o);
      u.history[|u.history| - 1] == Message(Assistant, ConfirmationText(o.search(ConfirmQuery, ConfirmK)))
  {
    GreetingAsksNothing();
    SaveRegenerateKeepsConsistent(s, edited, o);
    var t := AfterSaveRegenerate(s, edited, o);
    YesIsPlain(yes);
    assert RouteOf(yes, t.pending) == Confirmation;
    InputTurn(t, yes, o);
  }
}
