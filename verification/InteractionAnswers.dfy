/**
 What asking, answering and cancelling do, told from the arguments of the call.
 */
module InteractionAnswers {

  import opened Options
  import opened Strings
  import opened Interaction

  predicate IsBlank(s: string) {
    Trim(s) == ""
  }

  // ----- Answering -----

  // The ids a caller chose: a list, or a single one.
  function Given(input: ResponseInput): seq<string> {
    if input.choiceIds.Some? then input.choiceIds.value
    else if input.choiceId.Some? then [input.choiceId.value]
    else []
  }

  function Trimmed(ids: seq<string>): (r: seq<string>)
    ensures |r| == |ids| && forall i | 0 <= i < |ids| :: r[i] == Trim(ids[i])
  {
    seq(|ids|, i requires 0 <= i < |ids| => Trim(ids[i]))
  }

  predicate Offered(choices: seq<Choice>, ids: seq<string>) {
    forall i | 0 <= i < |ids| :: ids[i] != "" && HasChoice(choices, ids[i])
  }

  predicate NamedOnce(ids: seq<string>) {
    forall i, j | 0 <= i < j < |ids| :: ids[i] != ids[j]
  }

  // The answer fits the question: text that is not blank, or ids that are offered, each
  // named once, one for a single choice and at least one for several.
  predicate Fits(q: Question, input: ResponseInput) {
    match q.kind
    case FreeText => input.text.Some? && !IsBlank(input.text.value)
    case SingleChoice => |Given(input)| == 1 && Offered(q.choices, Trimmed(Given(input)))
    case MultiChoice =>
      |Given(input)| > 0 && Offered(q.choices, Trimmed(Given(input))) && NamedOnce(Trimmed(Given(input)))
  }

  // What the asker gets: the text as it was given, less white space at its ends, or the
  // ids as they were given, in their order, each with the label it was offered under.
  predicate Delivers(q: Question, input: ResponseInput, r: Response) {
    if q.kind == FreeText then input.text.Some? && r == TextResponse(Trim(input.text.value))
    else
      && r.ChoiceResponse? && r.choiceIds == Trimmed(Given(input)) && |r.labels| == |r.choiceIds|
      && forall i | 0 <= i < |r.choiceIds| :: Choice(r.choiceIds[i], r.labels[i]) in q.choices
  }

  lemma {:induction false} IdsExactly(choices: seq<Choice>, raw: seq<string>, seen: seq<Id>)
    requires NamedOnce(seen)
    ensures var ids := Trimmed(raw);
            NormalizeIds(choices, raw, seen) ==
            if Offered(choices, ids) && NamedOnce(seen + ids) then Some(seen + ids) else None
    decreases raw
  {
    hide HasChoice, Trim;
    var ids := Trimmed(raw);
    if raw == [] {
      assert seen + ids == seen;
    } else {
      assert ids[0] == Trim(raw[0]);
      assert Trimmed(raw[1..]) == ids[1..];
      assert seen + [ids[0]] + ids[1..] == seen + ids;
      if NonEmpty(raw[0]).Some? && HasChoice(choices, ids[0]) && ids[0] !in seen {
        IdsExactly(choices, raw[1..], seen + [ids[0]]);
        assert Offered(choices, ids) <==> Offered(choices, ids[1..]) by {
          if Offered(choices, ids[1..]) {
            forall i | 0 <= i < |ids|
              ensures ids[i] != "" && HasChoice(choices, ids[i])
            {
              if i > 0 {
                assert ids[i] == ids[1..][i - 1];
              }
            }
          }
        }
      } else if ids[0] in seen {
        var k :| 0 <= k < |seen| && seen[k] == ids[0];
        assert (seen + ids)[k] == (seen + ids)[|seen|];
      }
    }
  }

  lemma {:induction false} ResponseExactly(q: Question, input: ResponseInput)
    requires GoodQuestion(q)
    ensures NormalizeResponse(q, input).Some? <==> Fits(q, input)
    ensures Fits(q, input) ==> Delivers(q, input, NormalizeResponse(q, input).value)
  {
    hide NormalizeIds, Offered, NamedOnce, Labels, HasChoice;
    NoneNamed();
    IdsExactly(q.choices, Given(input), []);
    var ids := Trimmed(Given(input));
    assert [] + ids == ids;
    if q.kind == SingleChoice && |ids| == 1 {
      OneNamed(ids);
    }
    if q.kind != FreeText && Fits(q, input) {
      LabelsAreOffered(q.choices, ids);
    }
  }

  lemma NoneNamed()
    ensures NamedOnce([])
  {
  }

  lemma OneNamed(ids: seq<string>)
    requires |ids| == 1
    ensures NamedOnce(ids)
  {
  }

  lemma {:induction false} LabelsAreOffered(choices: seq<Choice>, ids: seq<Id>)
    requires DistinctChoices(choices) && Offered(choices, ids)
    ensures forall i | 0 <= i < |ids| :: Choice(ids[i], Labels(choices, ids)[i]) in choices
  {
    forall i | 0 <= i < |ids|
      ensures Choice(ids[i], Labels(choices, ids)[i]) in choices
    {
      var k :| 0 <= k < |choices| && choices[k].id == ids[i];
      LabelIsFound(choices, k);
      assert choices[k] == Choice(ids[i], Labels(choices, ids)[i]);
    }
  }

  // The record of a question is settled and nothing else happens but the event.
  ghost predicate SettledBy(s: State, t: State, id: Id, promise: Promise, event: Event)
    requires InRange(s) && id in s.pending
  {
    var i := s.pending[id];
    && |t.records| == |s.records| && t.records[i].question == s.records[i].question
    && t.records[i].promise == promise && !t.records[i].timer && t.records[i].handler.None?
    && (forall k | 0 <= k < |s.records| && k != i :: t.records[k] == s.records[k])
    && t.pending == s.pending - {id} && t.aborted == s.aborted && t.log == s.log + [event]
  }

  /** A pending question is settled by an answer if and only if the answer fits it, and
      then with what was given. Any other answer changes nothing. */
  lemma {:induction false} AnswerSettles(s: State, id: Id, input: ResponseInput)
    requires Inv(s)
    ensures var t := Next(s, Answer(id, input));
            if id in s.pending && Fits(s.records[s.pending[id]].question, input) then
              exists r :: Delivers(s.records[s.pending[id]].question, input, r)
                          && SettledBy(s, t, id, Resolved(r), Answered(id, s.pending[id], r))
            else t == s
  {
    hide Inv, Fits, Delivers, NormalizeResponse, LogInv, GoodQuestion;
    InvParts(s);
    if id in s.pending {
      assert RecordInv(s, s.pending[id]);
      ResponseExactly(s.records[s.pending[id]].question, input);
    }
  }

  /** Cancelling settles the pending question as cancelled, and does nothing without one. */
  lemma {:induction false} CancelSettles(s: State, id: Id)
    requires Inv(s)
    ensures var t := Next(s, Cancel(id));
            if id in s.pending then
              SettledBy(s, t, id, Rejected(Cancelled), QuestionCancelled(id, s.pending[id], Cancelled))
            else t == s
  {
    hide Inv, LogInv;
    InvParts(s);
  }

  // ----- Asking -----

  // The choices as they are offered: trimmed, in their order.
  function TrimmedChoices(input: seq<Choice>): (r: seq<Choice>)
    ensures |r| == |input|
  {
    seq(|input|, i requires 0 <= i < |input| => Choice(Trim(input[i].id), Trim(input[i].caption)))
  }

  predicate GoodChoices(input: seq<Choice>) {
    (forall i | 0 <= i < |input| :: !IsBlank(input[i].id) && !IsBlank(input[i].caption))
  }

  // A question that may be asked.
  predicate GoodInput(input: QuestionInput) {
    && input.kind.Some? && (input.id.Some? ==> !IsBlank(input.id.value)) && !IsBlank(input.text)
    && GoodTimeout(input.timeoutMs, input.createdAt)
    && (input.kind.value == FreeText <==> input.choices == [])
    && GoodChoices(input.choices) && DistinctChoices(TrimmedChoices(input.choices))
  }

  function InputId(input: QuestionInput): Id {
    if input.id.Some? then Trim(input.id.value) else input.generated
  }

  lemma {:induction false} ChoicesExactly(input: seq<Choice>, seen: seq<Choice>)
    requires DistinctChoices(seen)
    ensures FreezeChoices(input, seen) ==
            if GoodChoices(input) && DistinctChoices(seen + TrimmedChoices(input))
            then Some(seen + TrimmedChoices(input)) else None
    decreases input
  {
    hide Trim;
    var all := TrimmedChoices(input);
    if input == [] {
      assert seen + all == seen;
    } else {
      assert all[0] == Choice(Trim(input[0].id), Trim(input[0].caption));
      assert TrimmedChoices(input[1..]) == all[1..];
      assert seen + [all[0]] + all[1..] == seen + all;
      if NonEmpty(input[0].id).Some? && !HasChoice(seen, all[0].id) && NonEmpty(input[0].caption).Some? {
        ChoicesExactly(input[1..], seen + [all[0]]);
        assert GoodChoices(input) <==> GoodChoices(input[1..]) by {
          if GoodChoices(input[1..]) {
            forall i | 0 <= i < |input|
              ensures !IsBlank(input[i].id) && !IsBlank(input[i].caption)
            {
              if i > 0 {
                assert input[i] == input[1..][i - 1];
              }
            }
          }
        }
      } else if HasChoice(seen, all[0].id) {
        var k :| 0 <= k < |seen| && seen[k].id == all[0].id;
        assert (seen + all)[k].id == (seen + all)[|seen|].id;
      }
    }
  }

  lemma {:induction false} InputExactly(input: QuestionInput)
    ensures NormalizeQuestion(input) ==
            if GoodInput(input) then
              Some(Question(InputId(input), input.kind.value, TrimmedChoices(input.choices), input.timeoutMs.Some?))
            else None
  {
    hide FreezeChoices, GoodChoices, DistinctChoices, Trim;
    assert DistinctChoices([]) && (input.choices == [] ==> GoodChoices([]) && TrimmedChoices([]) == []) by {
      NoChoices();
    }
    ChoicesExactly(input.choices, []);
    assert [] + TrimmedChoices(input.choices) == TrimmedChoices(input.choices);
  }

  lemma NoChoices()
    ensures DistinctChoices([]) && GoodChoices([]) && TrimmedChoices([]) == []
  {
  }

  /** Asking registers the question under its id if and only if it is a good one, its
      signal has not aborted and its id is not pending: with its choices trimmed, a timer
      if it has a timeout, and a handler if it has a signal. Otherwise nothing changes. */
  lemma {:induction false} AskRegisters(s: State, asked: QuestionInput, signal: Option<SignalId>)
    requires Inv(s)
    ensures var t := Next(s, Ask(asked, signal));
            var i := |s.records|;
            if GoodInput(asked) && !(signal.Some? && signal.value in s.aborted) && InputId(asked) !in s.pending then
              var q := Question(InputId(asked), asked.kind.value, TrimmedChoices(asked.choices), asked.timeoutMs.Some?);
              && t.records == s.records + [Record(q, Pending, asked.timeoutMs.Some?, signal)]
              && t.pending == s.pending[InputId(asked) := i] && t.aborted == s.aborted
              && t.log == s.log + [Requested(InputId(asked), i)]
            else t == s
  {
    hide Inv, GoodInput, NormalizeQuestion;
    InvParts(s);
    InputExactly(asked);
  }
}
