/** The contact form: four text fields, a submitting flag and a status, changed by field
    edits, by the submit handler and by the two deferred callbacks it schedules. The
    callbacks are events of their own; the browser's queue of scheduled callbacks is kept
    as two counters, so that a callback fires only after it was scheduled. */
module Contact {

  datatype Field = Name | Email | Subject | Message

  datatype FormData = FormData(name: string, email: string, subject: string, message: string)

  datatype Status = Idle | Success | Error

  /** The component state together with the callbacks waiting in the timer queue: the
      first callback (2000 ms after a submit) and the second (5000 ms after the first). */
  datatype FormState = FormState(
    data: FormData,
    isSubmitting: bool,
    status: Status,
    pendingFirst: nat,
    pendingSecond: nat)

  datatype Event = Change(field: Field, value: string) | Submit | FirstTimerFires | SecondTimerFires

  const EmptyForm := FormData("", "", "", "")

  /** Four empty fields, not submitting, status idle, nothing scheduled. */
  const Initial := FormState(EmptyForm, false, Idle, 0, 0)

  function Get(d: FormData, f: Field): string
  {
    match f
    case Name => d.name
    case Email => d.email
    case Subject => d.subject
    case Message => d.message
  }

  /** `{...formData, [e.target.name]: e.target.value}`: the named field takes the new value
      and the other three keep theirs. */
  function Set(d: FormData, f: Field, v: string): (r: FormData)
    ensures Get(r, f) == v
    ensures forall g :: g != f ==> Get(r, g) == Get(d, g)
  {
    match f
    case Name => d.(name := v)
    case Email => d.(email := v)
    case Subject => d.(subject := v)
    case Message => d.(message := v)
  }

  /** One event. A timer event with no callback of its kind scheduled cannot happen and
      leaves the state as it is. */
  function Step(s: FormState, e: Event): (r: FormState)
    ensures r.status == s.status || (e.FirstTimerFires? && r.status == Success) || (e.SecondTimerFires? && r.status == Idle)
    ensures !e.Change? ==> r.data == s.data || r.data == EmptyForm
  {
    match e
    case Change(f, v) => s.(data := Set(s.data, f, v))
    case Submit => s.(isSubmitting := true, pendingFirst := s.pendingFirst + 1)
    case FirstTimerFires =>
      if s.pendingFirst == 0 then s
      else s.(isSubmitting := false, status := Success, data := EmptyForm,
              pendingFirst := s.pendingFirst - 1, pendingSecond := s.pendingSecond + 1)
    case SecondTimerFires =>
      if s.pendingSecond == 0 then s
      else s.(status := Idle, pendingSecond := s.pendingSecond - 1)
  }

  /** A change event rewrites only its own field; nothing else changes. */
  lemma ChangeTouchesOnlyItsField(s: FormState, f: Field, v: string)
    ensures var r := Step(s, Change(f, v));
      && Get(r.data, f) == v
      && (forall g :: g != f ==> Get(r.data, g) == Get(s.data, g))
      && r.isSubmitting == s.isSubmitting && r.status == s.status
      && r.pendingFirst == s.pendingFirst && r.pendingSecond == s.pendingSecond
  {
  }

  /** Submitting raises the flag and schedules the first callback; fields and status stay. */
  lemma SubmitEffect(s: FormState)
    ensures var r := Step(s, Submit);
      r.isSubmitting && r.data == s.data && r.status == s.status && r.pendingFirst == s.pendingFirst + 1
  {
  }

  /** The first callback ends the submission: the flag drops, the status is success, all four
      fields are cleared and the second callback is scheduled. */
  lemma FirstTimerEffect(s: FormState)
    requires s.pendingFirst > 0
    ensures var r := Step(s, FirstTimerFires);
      && !r.isSubmitting && r.status == Success
      && (forall f :: Get(r.data, f) == "")
      && r.pendingSecond == s.pendingSecond + 1
  {
  }

  /** The second callback only returns the status to idle. */
  lemma SecondTimerEffect(s: FormState)
    requires s.pendingSecond > 0
    ensures var r := Step(s, SecondTimerFires);
      r.status == Idle && r.data == s.data && r.isSubmitting == s.isSubmitting
  {
  }

  /** Every field holds something, as the `required` attributes demand before the browser
      lets the form submit. */
  predicate AllFilled(d: FormData)
  {
    forall f :: Get(d, f) != ""
  }

  /** The submit button is enabled (`disabled={isSubmitting}`) and the required fields are
      filled: only then does the browser call the submit handler, which itself checks
      nothing. */
  predicate SubmitEnabled(s: FormState)
  {
    !s.isSubmitting && AllFilled(s.data)
  }

  /** The events the page can deliver: edits and scheduled callbacks at any time, a submit
      only while enabled. */
  predicate Allowed(s: FormState, e: Event)
  {
    match e
    case Submit => SubmitEnabled(s)
    case FirstTimerFires => s.pendingFirst > 0
    case SecondTimerFires => s.pendingSecond > 0
    case Change(_, _) => true
  }

  /** One event as the page delivers it: an event it cannot deliver changes nothing. */
  function Deliver(s: FormState, e: Event): (r: FormState)
    ensures FormInvariant(s) ==> FormInvariant(r)
  {
    if Allowed(s, e) then Step(s, e) else s
  }

  /** The state after a run of events, delivered in order. */
  function Run(s: FormState, es: seq<Event>): FormState
    decreases |es|
  {
    if es == [] then s else Run(Deliver(s, es[0]), es[1..])
  }

  /** The green banner. */
  predicate ShowsSuccessBanner(s: FormState)
  {
    s.status == Success
  }

  /** The error status is declared but no event ever enters it. */
  lemma {:induction false} NeverError(s: FormState, es: seq<Event>)
    requires s.status != Error
    ensures Run(s, es).status != Error
    decreases |es|
  {
    if es != [] {
      NeverError(Deliver(s, es[0]), es[1..]);
    }
  }

  /** The form's inductive invariant, which holds initially and is kept by every event the page
      can deliver: at most one submission is in flight, the flag is up exactly while its first
      callback is pending, and while the success banner shows a callback that will hide it is
      pending. */
  predicate FormInvariant(s: FormState)
  {
    && s.pendingFirst <= 1
    && (s.isSubmitting <==> s.pendingFirst == 1)
    && s.status != Error
    && (ShowsSuccessBanner(s) ==> s.pendingSecond > 0)
  }

  /** Every run of deliverable events from a state satisfying the invariant (the initial one
      among them) keeps it; since submit is disabled while the flag is up, a submission is
      never started while another one is in progress. */
  lemma {:induction false} RunKeepsInvariant(s: FormState, es: seq<Event>)
    requires FormInvariant(s)
    ensures FormInvariant(Run(s, es))
    decreases |es|
  {
    if es != [] {
      RunKeepsInvariant(Deliver(s, es[0]), es[1..]);
    }
  }

  /** A filled, idle form goes idle -> submitting -> success (fields cleared) -> idle:
      after the submit and both callbacks it is back in the initial state. */
  lemma SubmissionCycle(s: FormState)
    requires FormInvariant(s) && SubmitEnabled(s) && s.status == Idle && s.pendingSecond == 0
    ensures Run(s, [Submit]).isSubmitting
    ensures ShowsSuccessBanner(Run(s, [Submit, FirstTimerFires]))
    ensures Run(s, [Submit, FirstTimerFires]).data == EmptyForm
    ensures Run(s, [Submit, FirstTimerFires, SecondTimerFires]) == Initial
  {
    var s1 := Deliver(s, Submit);
    var s2 := Deliver(s1, FirstTimerFires);
    var s3 := Deliver(s2, SecondTimerFires);
    assert Run(s, [Submit]) == s1 by {
      assert [Submit][1..] == [];
    }
    assert Run(s, [Submit, FirstTimerFires]) == s2 by {
      assert [Submit, FirstTimerFires][1..] == [FirstTimerFires];
      assert [FirstTimerFires][1..] == [];
      assert Run(s1, [FirstTimerFires]) == s2;
    }
    assert Run(s, [Submit, FirstTimerFires, SecondTimerFires]) == s3 by {
      assert [Submit, FirstTimerFires, SecondTimerFires][1..] == [FirstTimerFires, SecondTimerFires];
      assert [FirstTimerFires, SecondTimerFires][1..] == [SecondTimerFires];
      assert [SecondTimerFires][1..] == [];
      assert Run(s2, [SecondTimerFires]) == s3;
      assert Run(s1, [FirstTimerFires, SecondTimerFires]) == s3;
    }
    assert s3 == Initial;
  }

  /** The form component, whose state its handlers and callbacks overwrite. */
  class ContactForm {
    var formData: FormData
    var isSubmitting: bool
    var submitStatus: Status
    var pendingFirst: nat
    var pendingSecond: nat

    function State(): FormState
      reads this
    {
      FormState(formData, isSubmitting, submitStatus, pendingFirst, pendingSecond)
    }

    constructor ()
      ensures State() == Initial
    {
      formData := EmptyForm;
      isSubmitting := false;
      submitStatus := Idle;
      pendingFirst, pendingSecond := 0, 0;
    }

    method HandleChange(f: Field, v: string)
      modifies this
      ensures State() == Step(old(State()), Change(f, v))
    {
      formData := Set(formData, f, v);
    }

    /** Raises the flag and schedules the first callback. */
    method HandleSubmit()
      modifies this
      ensures State() == Step(old(State()), Submit)
    {
      isSubmitting := true;
      pendingFirst := pendingFirst + 1;
    }

    /** The callback scheduled by a submit. */
    method FirstTimerFires()
      requires pendingFirst > 0
      modifies this
      ensures State() == Step(old(State()), Event.FirstTimerFires)
    {
      isSubmitting := false;
      submitStatus := Success;
      formData := EmptyForm;
      pendingFirst := pendingFirst - 1;
      pendingSecond := pendingSecond + 1;
    }

    /** The callback scheduled by the first one. */
    method SecondTimerFires()
      requires pendingSecond > 0
      modifies this
      ensures State() == Step(old(State()), Event.SecondTimerFires)
    {
      submitStatus := Idle;
      pendingSecond := pendingSecond - 1;
    }
  }
}
