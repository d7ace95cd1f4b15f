/**
 The pending-question registry of the interaction plugin: asking, answering and
 cancelling, with timers and abort handlers that close a question by its id.
 */
module Interaction {

  import opened Options
  import opened Strings

  type Id = string

  type SignalId = nat

  // ----- Questions and responses -----

  datatype Kind = FreeText | SingleChoice | MultiChoice

  datatype Choice = Choice(id: Id, caption: string)

  datatype Question = Question(id: Id, kind: Kind, choices: seq<Choice>, timed: bool)

  datatype Number = Finite(value: real) | NotFinite

  // What a caller asks. `kind` is missing when it is none of the three; `generated` is
  // the id the factory would give.
  datatype QuestionInput = QuestionInput(
    id: Option<string>, generated: Id, text: string, kind: Option<Kind>, choices: seq<Choice>, timeoutMs: Option<Number>,
    createdAt: real)

  // `choiceIds` wins over `choiceId`; either may be missing.
  datatype ResponseInput = ResponseInput(text: Option<string>, choiceIds: Option<seq<string>>, choiceId: Option<string>)

  datatype Response = TextResponse(text: string) | ChoiceResponse(choiceIds: seq<Id>, labels: seq<string>)

  function NonEmpty(value: string): Option<string> {
    if Trim(value) == "" then None else Some(Trim(value))
  }

  predicate HasChoice(choices: seq<Choice>, id: Id) {
    exists i | 0 <= i < |choices| :: choices[i].id == id
  }

  // The choices with trimmed ids and labels; no id twice.
  function FreezeChoices(input: seq<Choice>, seen: seq<Choice>): Option<seq<Choice>>
    decreases input
  {
    if input == [] then Some(seen)
    else if NonEmpty(input[0].id).None? || HasChoice(seen, NonEmpty(input[0].id).value) then None
    else if NonEmpty(input[0].caption).None? then None
    else FreezeChoices(input[1..], seen + [Choice(NonEmpty(input[0].id).value, NonEmpty(input[0].caption).value)])
  }

  // Text questions have no choices, the others at least one.
  function QuestionChoices(input: seq<Choice>, kind: Kind): Option<seq<Choice>> {
    if kind == FreeText then (if input == [] then Some([]) else None)
    else if input == [] then None
    else FreezeChoices(input, [])
  }

  function QuestionId(input: QuestionInput): Option<Id> {
    if input.id.None? then Some(input.generated) else NonEmpty(input.id.value)
  }

  // The latest moment that a date can be, in milliseconds.
  const LAST_DATE := 8640000000000000.0

  // A timeout past the last date throws where its date is written out.
  predicate GoodTimeout(timeoutMs: Option<Number>, createdAt: real) {
    timeoutMs.Some? ==>
      timeoutMs.value.Finite? && timeoutMs.value.value > 0.0 && createdAt + timeoutMs.value.value <= LAST_DATE
  }

  function NormalizeQuestion(input: QuestionInput): Option<Question> {
    if input.kind.None? || QuestionId(input).None? || NonEmpty(input.text).None? then None
    else if !GoodTimeout(input.timeoutMs, input.createdAt) then None
    else
      match QuestionChoices(input.choices, input.kind.value)
      case None => None
      case Some(choices) => Some(Question(QuestionId(input).value, input.kind.value, choices, input.timeoutMs.Some?))
  }

  predicate DistinctChoices(choices: seq<Choice>) {
    forall i, j | 0 <= i < j < |choices| :: choices[i].id != choices[j].id
  }

  lemma {:induction false} FrozenChoicesAreDistinct(input: seq<Choice>, seen: seq<Choice>)
    requires DistinctChoices(seen)
    ensures FreezeChoices(input, seen).Some? ==>
              DistinctChoices(FreezeChoices(input, seen).value)
              && |FreezeChoices(input, seen).value| == |seen| + |input|
    decreases input
  {
    hide NonEmpty;
    if FreezeChoices(input, seen).Some? && input != [] {
      FrozenChoicesAreDistinct(input[1..], seen + [Choice(NonEmpty(input[0].id).value, NonEmpty(input[0].caption).value)]);
    }
  }

  function FindChoiceLabel(choices: seq<Choice>, id: Id): string {
    if choices == [] then id
    else if choices[0].id == id then choices[0].caption
    else FindChoiceLabel(choices[1..], id)
  }

  function RawChoiceIds(response: ResponseInput): seq<string> {
    match response.choiceIds
    case Some(ids) => ids
    case None => if response.choiceId.Some? then [response.choiceId.value] else []
  }

  // Each id trimmed, offered, and named once.
  function NormalizeIds(choices: seq<Choice>, raw: seq<string>, seen: seq<Id>): Option<seq<Id>>
    decreases raw
  {
    if raw == [] then Some(seen)
    else
      match NonEmpty(raw[0])
      case None => None
      case Some(id) =>
        if !HasChoice(choices, id) || id in seen then None else NormalizeIds(choices, raw[1..], seen + [id])
  }

  function Labels(choices: seq<Choice>, ids: seq<Id>): (r: seq<string>)
    ensures |r| == |ids|
  {
    seq(|ids|, i requires 0 <= i < |ids| => FindChoiceLabel(choices, ids[i]))
  }

  function NormalizeResponse(q: Question, response: ResponseInput): Option<Response> {
    if q.kind == FreeText then
      match response.text
      case None => None
      case Some(text) => if NonEmpty(text).None? then None else Some(TextResponse(NonEmpty(text).value))
    else
      var raw := RawChoiceIds(response);
      if q.kind == SingleChoice && |raw| != 1 then None
      else if q.kind == MultiChoice && |raw| == 0 then None
      else
        match NormalizeIds(q.choices, raw, [])
        case None => None
        case Some(ids) => Some(ChoiceResponse(ids, Labels(q.choices, ids)))
  }

  lemma {:induction false} LabelIsFound(choices: seq<Choice>, i: nat)
    requires i < |choices| && DistinctChoices(choices)
    ensures FindChoiceLabel(choices, choices[i].id) == choices[i].caption
  {
    if i > 0 {
      LabelIsFound(choices[1..], i - 1);
    }
  }

  lemma {:induction false} IdsAreChosen(choices: seq<Choice>, raw: seq<string>, seen: seq<Id>)
    requires NormalizeIds(choices, raw, seen).Some?
    requires (forall id <- seen :: HasChoice(choices, id)) && (forall i, j | 0 <= i < j < |seen| :: seen[i] != seen[j])
    ensures var ids := NormalizeIds(choices, raw, seen).value;
            && |ids| == |seen| + |raw|
            && (forall id <- ids :: HasChoice(choices, id)) && (forall i, j | 0 <= i < j < |ids| :: ids[i] != ids[j])
    decreases raw
  {
    hide NonEmpty, HasChoice;
    if raw != [] {
      IdsAreChosen(choices, raw[1..], seen + [NonEmpty(raw[0]).value]);
    }
  }

  // A question that may be registered.
  predicate GoodQuestion(q: Question) {
    (q.kind == FreeText <==> q.choices == []) && DistinctChoices(q.choices)
  }

  lemma {:induction false} NormalizedIsGood(input: QuestionInput)
    ensures NormalizeQuestion(input).Some? ==> GoodQuestion(NormalizeQuestion(input).value)
  {
    hide FreezeChoices, NonEmpty, QuestionId;
    FrozenChoicesAreDistinct(input.choices, []);
  }

  // An answer to a text question is text; to a choice question it names offered
  // choices, none twice, one of them for a single choice, each with its label.
  predicate Answers(q: Question, r: Response) {
    if q.kind == FreeText then r.TextResponse? && r.text != ""
    else
      && r.ChoiceResponse? && |r.choiceIds| > 0 && (q.kind == SingleChoice ==> |r.choiceIds| == 1)
      && |r.labels| == |r.choiceIds|
      && (forall i | 0 <= i < |r.choiceIds| :: Choice(r.choiceIds[i], r.labels[i]) in q.choices)
      && (forall i, j | 0 <= i < j < |r.choiceIds| :: r.choiceIds[i] != r.choiceIds[j])
  }

  /** An accepted response answers the question. */
  lemma {:induction false} AcceptedAnswers(q: Question, response: ResponseInput)
    requires DistinctChoices(q.choices) && NormalizeResponse(q, response).Some?
    ensures Answers(q, NormalizeResponse(q, response).value)
  {
    hide NormalizeIds, RawChoiceIds;
    if q.kind != FreeText {
      IdsAreChosen(q.choices, RawChoiceIds(response), []);
      var r := NormalizeResponse(q, response).value;
      forall i | 0 <= i < |r.choiceIds|
        ensures Choice(r.choiceIds[i], r.labels[i]) in q.choices
      {
        assert r.choiceIds[i] in r.choiceIds;
        var k :| 0 <= k < |q.choices| && q.choices[k].id == r.choiceIds[i];
        LabelIsFound(q.choices, k);
        assert q.choices[k] == Choice(r.choiceIds[i], r.labels[i]);
      }
    }
  }

  // ----- The registry -----

  datatype Code = Timeout | Cancelled | Aborted

  datatype Promise = Pending | Resolved(response: Response) | Rejected(code: Code)

  // One asked question. `timer` says that its timeout may still fire, `handler`
  // which signal its abort handler is installed on.
  datatype Record = Record(question: Question, promise: Promise, timer: bool, handler: Option<SignalId>)

  // Events name the question's record; subscribers see the question itself.
  datatype Event =
    | Requested(id: Id, record: nat)
    | Answered(id: Id, record: nat, response: Response)
    | QuestionCancelled(id: Id, record: nat, code: Code)

  datatype State = State(records: seq<Record>, pending: map<Id, nat>, aborted: set<SignalId>, log: seq<Event>)

  const INITIAL := State([], map[], {}, [])

  // Everything that can happen to the registry.
  datatype Step =
    | Ask(asked: QuestionInput, signal: Option<SignalId>)
    | Answer(id: Id, input: ResponseInput)
    | Cancel(id: Id)
    | TimerFires(record: nat)
    | SignalAborts(source: SignalId)
    | HandlerRuns(record: nat)

  // Timers fire once unless cleared; abort handlers run once unless removed.
  predicate Enabled(s: State, step: Step) {
    match step
    case TimerFires(i) => i < |s.records| && s.records[i].timer
    case HandlerRuns(i) => i < |s.records| && s.records[i].handler.Some? && s.records[i].handler.value in s.aborted
    case _ => true
  }

  // `pendingQuestions.delete` and `clearPendingQuestion`, then the promise and the event.
  function Settle(s: State, id: Id, promise: Promise, event: Event): State
    requires id in s.pending && s.pending[id] < |s.records|
  {
    var i := s.pending[id];
    State(s.records[i := s.records[i].(promise := promise, timer := false, handler := None)],
          s.pending - {id}, s.aborted, s.log + [event])
  }

  function Close(s: State, id: Id, code: Code): State
    requires id in s.pending ==> s.pending[id] < |s.records|
  {
    if id in s.pending then Settle(s, id, Rejected(code), QuestionCancelled(id, s.pending[id], code)) else s
  }

  predicate InRange(s: State) {
    forall id | id in s.pending :: s.pending[id] < |s.records|
  }

  // A question that is not refused is registered under its id.
  function Register(s: State, question: Question, signal: Option<SignalId>): State {
    var i := |s.records|;
    State(s.records + [Record(question, Pending, question.timed, signal)], s.pending[question.id := i],
          s.aborted, s.log + [Requested(question.id, i)])
  }

  // Asking is refused when the question is not a good one, the signal has aborted
  // already or the id is taken.
  predicate Accepts(s: State, asked: QuestionInput, signal: Option<SignalId>) {
    && NormalizeQuestion(asked).Some? && !(signal.Some? && signal.value in s.aborted)
    && NormalizeQuestion(asked).value.id !in s.pending
  }

  function Next(s: State, step: Step): State
    requires InRange(s) && Enabled(s, step)
  {
    match step
    case Ask(asked, signal) =>
      if Accepts(s, asked, signal) then Register(s, NormalizeQuestion(asked).value, signal) else s
    case Answer(id, input) =>
      if id !in s.pending then s
      else
        (match NormalizeResponse(s.records[s.pending[id]].question, input)
         case None => s
         case Some(response) => Settle(s, id, Resolved(response), Answered(id, s.pending[id], response)))
    case Cancel(id) => Close(s, id, Cancelled)
    case TimerFires(i) =>
      Close(s.(records := s.records[i := s.records[i].(timer := false)]), s.records[i].question.id, Timeout)
    case SignalAborts(signal) => s.(aborted := s.aborted + {signal})
    case HandlerRuns(i) =>
      Close(s.(records := s.records[i := s.records[i].(handler := None)]), s.records[i].question.id, Aborted)
  }

  // ----- What every run keeps -----

  // A question is open exactly while its id leads to it, and only then does it
  // have a timer or a handler.
  ghost predicate RegistryInv(s: State) {
    && InRange(s)
    && (forall id | id in s.pending :: s.records[s.pending[id]].question.id == id)
    && (forall i | 0 <= i < |s.records| :: RecordInv(s, i))
  }

  ghost predicate RecordInv(s: State, i: nat)
    requires i < |s.records|
  {
    var r := s.records[i];
    && (r.promise.Pending? <==> r.question.id in s.pending && s.pending[r.question.id] == i)
    && (r.timer || r.handler.Some? ==> r.promise.Pending?)
    && GoodQuestion(r.question) && (r.promise.Resolved? ==> Answers(r.question, r.promise.response))
  }

  // The log of one question id.
  function LogOf(log: seq<Event>, id: Id): (r: seq<Event>)
    ensures forall k | 0 <= k < |r| :: r[k].id == id
  {
    if log == [] then []
    else
      var front := LogOf(log[..|log| - 1], id);
      if log[|log| - 1].id == id then front + [log[|log| - 1]] else front
  }

  // Requested and one terminal event, in turn, and each pair about the same record.
  predicate Alternates(log: seq<Event>) {
    && (forall k | 0 <= k < |log| :: log[k].Requested? <==> k % 2 == 0)
    && (forall k | 0 < k < |log| :: k % 2 == 1 ==> log[k].record == log[k - 1].record)
  }

  ghost predicate LogInv(s: State, id: Id) {
    var log := LogOf(s.log, id);
    && Alternates(log)
    && (id in s.pending <==> |log| % 2 == 1)
    && (id in s.pending ==> log[|log| - 1].record == s.pending[id])
  }

  ghost predicate Inv(s: State) {
    RegistryInv(s) && forall id :: LogInv(s, id)
  }

  lemma {:induction false} LogGrows(log: seq<Event>, e: Event, id: Id)
    ensures LogOf(log + [e], id) == if e.id == id then LogOf(log, id) + [e] else LogOf(log, id)
  {
    assert (log + [e])[..|log|] == log;
  }

  lemma {:induction false} SettleKeeps(s: State, id: Id, promise: Promise, event: Event)
    requires Inv(s) && id in s.pending && !promise.Pending?
    requires event.id == id && event.record == s.pending[id] && !event.Requested?
    requires promise.Resolved? ==> Answers(s.records[s.pending[id]].question, promise.response)
    ensures Inv(Settle(s, id, promise, event))
  {
    hide LogOf, LogInv, RecordInv, Answers;
    SettleKeepsRegistry(s, id, promise, event);
    forall other
      ensures LogInv(Settle(s, id, promise, event), other)
    {
      SettleKeepsLog(s, id, promise, event, other);
    }
  }

  lemma {:induction false} SettleKeepsRegistry(s: State, id: Id, promise: Promise, event: Event)
    requires RegistryInv(s) && id in s.pending && !promise.Pending?
    requires promise.Resolved? ==> Answers(s.records[s.pending[id]].question, promise.response)
    ensures RegistryInv(Settle(s, id, promise, event))
  {
    hide GoodQuestion, Answers;
    var t := Settle(s, id, promise, event);
    forall i | 0 <= i < |t.records|
      ensures RecordInv(t, i)
    {
      assert RecordInv(s, i);
    }
  }

  lemma {:induction false} SettleKeepsLog(s: State, id: Id, promise: Promise, event: Event, other: Id)
    requires InRange(s) && LogInv(s, other) && id in s.pending && LogInv(s, id)
    requires event.id == id && event.record == s.pending[id] && !event.Requested?
    ensures LogInv(Settle(s, id, promise, event), other)
  {
    hide LogOf;
    LogGrows(s.log, event, other);
  }

  // A timer or handler that is used up, on a record that is still open.
  lemma {:induction false} DisarmKeeps(s: State, i: nat, r: Record)
    requires Inv(s) && i < |s.records| && s.records[i].promise.Pending?
    requires r == s.records[i].(timer := false) || r == s.records[i].(handler := None)
    ensures Inv(s.(records := s.records[i := r]))
    ensures s.records[i].question.id in s.pending && s.pending[s.records[i].question.id] == i
  {
    hide LogOf;
    assert RecordInv(s, i);
    var t := s.(records := s.records[i := r]);
    forall k | 0 <= k < |t.records|
      ensures RecordInv(t, k)
    {
      assert RecordInv(s, k);
    }
    forall other
      ensures LogInv(t, other)
    {
      assert LogInv(s, other);
    }
  }

  lemma {:induction false} RegisterKeeps(s: State, question: Question, signal: Option<SignalId>)
    requires Inv(s) && GoodQuestion(question) && question.id !in s.pending
    ensures Inv(Register(s, question, signal))
  {
    hide LogOf, LogInv, RecordInv, GoodQuestion;
    RegisterKeepsRegistry(s, question, signal);
    forall other
      ensures LogInv(Register(s, question, signal), other)
    {
      RegisterKeepsLog(s, question, signal, other);
    }
  }

  lemma {:induction false} RegisterKeepsRegistry(s: State, question: Question, signal: Option<SignalId>)
    requires RegistryInv(s) && GoodQuestion(question) && question.id !in s.pending
    ensures RegistryInv(Register(s, question, signal))
  {
    hide GoodQuestion, Answers;
    var t := Register(s, question, signal);
    forall i | 0 <= i < |t.records|
      ensures RecordInv(t, i)
    {
      if i < |s.records| {
        assert RecordInv(s, i);
      }
    }
  }

  lemma {:induction false} RegisterKeepsLog(s: State, question: Question, signal: Option<SignalId>, id: Id)
    requires InRange(s) && LogInv(s, id) && question.id !in s.pending
    ensures LogInv(Register(s, question, signal), id)
  {
    hide LogOf;
    LogGrows(s.log, Requested(question.id, |s.records|), id);
  }

  lemma {:induction false} AbortKeeps(s: State, signal: SignalId)
    requires Inv(s)
    ensures Inv(s.(aborted := s.aborted + {signal}))
  {
    hide LogOf;
    var t := s.(aborted := s.aborted + {signal});
    forall i | 0 <= i < |t.records|
      ensures RecordInv(t, i)
    {
      assert RecordInv(s, i);
    }
    forall other
      ensures LogInv(t, other)
    {
      assert LogInv(s, other);
    }
  }

  lemma {:induction false} NextKeeps(s: State, step: Step)
    requires Inv(s) && Enabled(s, step)
    ensures Inv(Next(s, step))
  {
    hide Inv, LogInv, NormalizeResponse, NormalizeQuestion, LogOf, Settle, Register, GoodQuestion, Answers;
    InvParts(s);
    match step
    case Ask(asked, signal) =>
      if Accepts(s, asked, signal) {
        NormalizedIsGood(asked);
        RegisterKeeps(s, NormalizeQuestion(asked).value, signal);
      }
    case Answer(id, input) =>
      if id in s.pending {
        var response := NormalizeResponse(s.records[s.pending[id]].question, input);
        if response.Some? {
          ResponseAnswers(s, id, input);
          SettleKeeps(s, id, Resolved(response.value), Answered(id, s.pending[id], response.value));
        }
      }
    case Cancel(id) =>
      if id in s.pending {
        SettleKeeps(s, id, Rejected(Cancelled), QuestionCancelled(id, s.pending[id], Cancelled));
      }
    case TimerFires(i) =>
      assert RecordInv(s, i);
      DisarmKeeps(s, i, s.records[i].(timer := false));
      SettleKeeps(s.(records := s.records[i := s.records[i].(timer := false)]), s.records[i].question.id,
                  Rejected(Timeout), QuestionCancelled(s.records[i].question.id, i, Timeout));
    case SignalAborts(signal) => AbortKeeps(s, signal);
    case HandlerRuns(i) =>
      assert RecordInv(s, i);
      DisarmKeeps(s, i, s.records[i].(handler := None));
      SettleKeeps(s.(records := s.records[i := s.records[i].(handler := None)]), s.records[i].question.id,
                  Rejected(Aborted), QuestionCancelled(s.records[i].question.id, i, Aborted));
  }

  lemma {:induction false} ResponseAnswers(s: State, id: Id, input: ResponseInput)
    requires RegistryInv(s) && id in s.pending && NormalizeResponse(s.records[s.pending[id]].question, input).Some?
    ensures var q := s.records[s.pending[id]].question; Answers(q, NormalizeResponse(q, input).value)
  {
    hide NormalizeResponse, Answers;
    assert RecordInv(s, s.pending[id]);
    AcceptedAnswers(s.records[s.pending[id]].question, input);
  }

  lemma InvParts(s: State)
    requires Inv(s)
    ensures RegistryInv(s)
  {
  }

  ghost predicate IsRun(s: State, steps: seq<Step>, t: State)
    decreases steps
  {
    if steps == [] then s == t
    else InRange(s) && Enabled(s, steps[0]) && IsRun(Next(s, steps[0]), steps[1..], t)
  }

  lemma {:induction false} RunKeeps(s: State, steps: seq<Step>, t: State)
    requires Inv(s) && IsRun(s, steps, t)
    ensures Inv(t)
    decreases steps
  {
    hide Inv, Next, Enabled;
    if steps != [] {
      InvParts(s);
      NextKeeps(s, steps[0]);
      RunKeeps(Next(s, steps[0]), steps[1..], t);
    }
  }

  /** After any run, for every question id: its events alternate between requested and
      exactly one terminal event, and it is pending exactly when the last is a request. */
  lemma {:induction false} EventsAlternate(steps: seq<Step>, t: State, id: Id)
    requires IsRun(INITIAL, steps, t)
    ensures Alternates(LogOf(t.log, id))
    ensures id in t.pending <==>
            LogOf(t.log, id) != [] && LogOf(t.log, id)[|LogOf(t.log, id)| - 1].Requested?
  {
    hide LogOf, IsRun, RegistryInv;
    InitialInv();
    RunKeeps(INITIAL, steps, t);
    assert LogInv(t, id);
  }

  lemma {:induction false} InitialInv()
    ensures Inv(INITIAL)
  {
    forall other
      ensures LogInv(INITIAL, other)
    {
      EmptyLog(other);
    }
  }

  lemma EmptyLog(id: Id)
    ensures LogOf([], id) == []
  {
  }

  /** A timer or abort handler closes the question that installed it and no other,
      also when the id is in use again. */
  lemma {:induction false} ClosesItsOwn(s: State, step: Step, i: nat)
    requires Inv(s) && Enabled(s, step) && (step == TimerFires(i) || step == HandlerRuns(i))
    ensures s.records[i].promise.Pending? && s.records[i].question.id in s.pending
            && s.pending[s.records[i].question.id] == i
    ensures var code := if step.TimerFires? then Timeout else Aborted;
            var t := Next(s, step);
            && t.records[i].promise == Rejected(code)
            && t.log == s.log + [QuestionCancelled(s.records[i].question.id, i, code)]
            && (forall k | 0 <= k < |s.records| && k != i :: t.records[k] == s.records[k])
            && t.pending == s.pending - {s.records[i].question.id}
  {
    hide Inv, LogInv;
    InvParts(s);
    assert RecordInv(s, i);
  }

  /** A promise settles at most once, and never changes after. */
  lemma {:induction false} SettledStays(s: State, step: Step, i: nat)
    requires Inv(s) && Enabled(s, step) && i < |s.records| && !s.records[i].promise.Pending?
    ensures i < |Next(s, step).records| && Next(s, step).records[i] == s.records[i]
  {
    hide Inv, LogInv, NormalizeResponse;
    InvParts(s);
    assert RecordInv(s, i);
    if step.TimerFires? || step.HandlerRuns? {
      assert RecordInv(s, step.record);
    }
  }

  // An event tells the truth about its record.
  ghost predicate Told(records: seq<Record>, e: Event) {
    && e.record < |records| && records[e.record].question.id == e.id
    && match e
       case Requested(_, _) => true
       case Answered(_, i, response) => records[i].promise == Resolved(response)
       case QuestionCancelled(_, i, code) => records[i].promise == Rejected(code)
  }

  ghost predicate AllTold(s: State) {
    forall k | 0 <= k < |s.log| :: Told(s.records, s.log[k])
  }

  lemma {:induction false} NextTells(s: State, step: Step)
    requires Inv(s) && Enabled(s, step) && AllTold(s)
    ensures AllTold(Next(s, step))
  {
    hide Inv, NormalizeResponse;
    InvParts(s);
    var t := Next(s, step);
    if step.TimerFires? || step.HandlerRuns? {
      assert RecordInv(s, step.record);
    }
    forall k | 0 <= k < |t.log|
      ensures Told(t.records, t.log[k])
    {
      if k < |s.log| {
        assert Told(s.records, s.log[k]);
        StillTold(s, step, s.log[k]);
      }
    }
  }

  lemma {:induction false} StillTold(s: State, step: Step, e: Event)
    requires Inv(s) && Enabled(s, step) && Told(s.records, e)
    ensures Told(Next(s, step).records, e)
  {
    hide Inv, NormalizeResponse;
    InvParts(s);
    assert RecordInv(s, e.record);
    if !s.records[e.record].promise.Pending? {
      SettledStays(s, step, e.record);
    }
  }

  lemma {:induction false} RunTells(s: State, steps: seq<Step>, t: State)
    requires Inv(s) && AllTold(s) && IsRun(s, steps, t)
    ensures AllTold(t)
    decreases steps
  {
    hide Inv, Next, Enabled, AllTold;
    if steps != [] {
      InvParts(s);
      NextKeeps(s, steps[0]);
      NextTells(s, steps[0]);
      RunTells(Next(s, steps[0]), steps[1..], t);
    }
  }

  /** Every event a subscriber ever saw agrees with how the asker's promise was settled. */
  lemma {:induction false} EventsMatchOutcomes(steps: seq<Step>, t: State)
    requires IsRun(INITIAL, steps, t)
    ensures AllTold(t)
  {
    InitialInv();
    RunTells(INITIAL, steps, t);
  }

  /** Every answer a subscriber ever saw answers its question, whose choices have
      distinct ids: it names offered choices, each with the label it was offered under. */
  lemma {:induction false} AnswersAreOffered(steps: seq<Step>, t: State, k: nat)
    requires IsRun(INITIAL, steps, t) && k < |t.log| && t.log[k].Answered?
    ensures var i := t.log[k].record;
            && i < |t.records| && t.records[i].question.id == t.log[k].id
            && GoodQuestion(t.records[i].question) && Answers(t.records[i].question, t.log[k].response)
  {
    hide LogInv, GoodQuestion, Answers;
    EventsMatchOutcomes(steps, t);
    InitialInv();
    RunKeeps(INITIAL, steps, t);
    assert Told(t.records, t.log[k]);
    assert RecordInv(t, t.log[k].record);
  }

  // ----- The registry as the source keeps it -----

  class InteractionPlugin {
    var pendingQuestions: map<Id, nat>
    // The record objects, by creation.
    var records: seq<Record>
    var aborted: set<SignalId>
    ghost var log: seq<Event>

    ghost predicate Valid()
      reads this
    {
      Inv(Model())
    }

    ghost function Model(): State
      reads this
    {
      State(records, pendingQuestions, aborted, log)
    }

    constructor ()
      ensures Valid() && Model() == INITIAL
    {
      pendingQuestions, records, aborted, log := map[], [], {}, [];
      new;
      forall id ensures LogInv(Model(), id) {
        EmptyLog(id);
      }
    }

    method ClearPendingQuestion(i: nat, promise: Promise)
      requires i < |records|
      modifies this`records
      ensures records == old(records)[i := old(records)[i].(promise := promise, timer := false, handler := None)]
    {
      var record := records[i];
      if record.timer {
        record := record.(timer := false);
      }
      if record.handler.Some? {
        record := record.(handler := None);
      }
      records := records[i := record.(promise := promise)];
    }

    method ClosePendingQuestion(id: Id, code: Code) returns (closed: bool)
      requires InRange(Model())
      modifies this
      ensures Model() == Close(old(Model()), id, code) && closed == (id in old(pendingQuestions))
    {
      if id !in pendingQuestions {
        return false;
      }
      var i := pendingQuestions[id];
      assert i < |records| by { assert i == Model().pending[id]; }
      pendingQuestions := pendingQuestions - {id};
      ClearPendingQuestion(i, Rejected(code));
      log := log + [QuestionCancelled(id, i, code)];
      closed := true;
    }

    method AskUser(input: QuestionInput, signal: Option<SignalId>) returns (accepted: bool)
      requires Valid()
      modifies this
      ensures Valid() && Model() == Next(old(Model()), Ask(input, signal))
      ensures accepted == Accepts(old(Model()), input, signal)
    {
      hide Inv, NormalizeQuestion;
      InvParts(Model());
      NextKeeps(Model(), Ask(input, signal));
      var normalized := NormalizeQuestion(input);
      if normalized.None? {
        return false;
      }
      var question := normalized.value;
      if signal.Some? && signal.value in aborted {
        return false;
      }
      if question.id in pendingQuestions {
        return false;
      }
      var i := |records|;
      records := records + [Record(question, Pending, question.timed, signal)];
      pendingQuestions := pendingQuestions[question.id := i];
      log := log + [Requested(question.id, i)];
      accepted := true;
    }

    method AnswerQuestion(id: Id, input: ResponseInput) returns (response: Option<Response>)
      requires Valid()
      modifies this
      ensures Valid() && Model() == Next(old(Model()), Answer(id, input))
    {
      hide Inv, NormalizeResponse;
      InvParts(Model());
      NextKeeps(Model(), Answer(id, input));
      if id !in pendingQuestions {
        return None;
      }
      var i := pendingQuestions[id];
      assert i < |records| by { assert i == Model().pending[id]; }
      response := NormalizeResponse(records[i].question, input);
      if response.None? {
        return;
      }
      pendingQuestions := pendingQuestions - {id};
      ClearPendingQuestion(i, Resolved(response.value));
      log := log + [Answered(id, i, response.value)];
    }

    method CancelQuestion(id: Id) returns (closed: bool)
      requires Valid()
      modifies this
      ensures Valid() && Model() == Next(old(Model()), Cancel(id)) && closed == (id in old(pendingQuestions))
    {
      hide Inv;
      InvParts(Model());
      NextKeeps(Model(), Cancel(id));
      closed := ClosePendingQuestion(id, Cancelled);
    }

    method TimerCallback(i: nat)
      requires Valid() && Enabled(Model(), TimerFires(i))
      modifies this
      ensures Valid() && Model() == Next(old(Model()), TimerFires(i))
    {
      hide Inv, Close;
      InvParts(Model());
      NextKeeps(Model(), TimerFires(i));
      var id := records[i].question.id;
      records := records[i := records[i].(timer := false)];
      assert InRange(Model()) by { assert Model().pending == old(Model()).pending; }
      var closed := ClosePendingQuestion(id, Timeout);
    }

    method AbortHandler(i: nat)
      requires Valid() && Enabled(Model(), HandlerRuns(i))
      modifies this
      ensures Valid() && Model() == Next(old(Model()), HandlerRuns(i))
    {
      hide Inv, Close;
      InvParts(Model());
      NextKeeps(Model(), HandlerRuns(i));
      var id := records[i].question.id;
      records := records[i := records[i].(handler := None)];
      assert InRange(Model()) by { assert Model().pending == old(Model()).pending; }
      var closed := ClosePendingQuestion(id, Aborted);
    }

    method Abort(signal: SignalId)
      requires Valid()
      modifies this
      ensures Valid() && Model() == Next(old(Model()), SignalAborts(signal))
    {
      hide Inv;
      InvParts(Model());
      NextKeeps(Model(), SignalAborts(signal));
      aborted := aborted + {signal};
    }
  }
}
