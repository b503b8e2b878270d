/** The lookup seen over time, with the contract calls that have been started and not yet
    answered. The button is inert while loading, but the Enter key handler is not, so as
    written a second call can start while the first is outstanding; with the key handler
    guarded like the button, at most one call is ever outstanding and the loading flag says
    exactly whether there is one. */
module InFlight {
  import opened Options
  import opened Strings
  import opened Lookup

  /** The page state and the arguments of the calls still awaiting an answer. */
  datatype Session = Session(ui: State, pending: seq<String>)

  /** What can happen next: typing or a sample-id button, a click on the lookup button, a
      key in the input box, or the answer to the `index`-th outstanding call. */
  datatype Event = Type(text: String) | Press | Key(key: String) | Answer(index: nat, outcome: Outcome)

  /** The session after mount and the binding effect. */
  function Start(walletPresent: bool): Session {
    Session(Bind(Initial, walletPresent), [])
  }

  /** Records a step: its state becomes current and the call it started, if any, joins the
      outstanding ones. */
  function Issue(sess: Session, st: Step): (r: Session)
    ensures r.ui == st.post
    ensures st.call.None? ==> r.pending == sess.pending
    ensures st.call.Some? ==> r.pending == sess.pending + [st.call.value]
  {
    Session(st.post, sess.pending + (if st.call.Some? then [st.call.value] else []))
  }

  /** The `index`-th outstanding call is answered: it leaves the outstanding ones and the
      state settles. Answering a call that is not outstanding changes nothing. */
  function Resolve(sess: Session, index: nat, outcome: Outcome): (r: Session)
    ensures index < |sess.pending| ==> |r.pending| == |sess.pending| - 1 && !r.ui.isLoading
    ensures index < |sess.pending| ==>
              && r.pending == sess.pending[..index] + sess.pending[index + 1..]
              && r.ui == Settle(sess.ui, outcome)
    ensures index >= |sess.pending| ==> r == sess
  {
    if index < |sess.pending| then
      Session(Settle(sess.ui, outcome), sess.pending[..index] + sess.pending[index + 1..])
    else sess
  }

  /** One event, with the key handler as written. */
  function StepAsWritten(sess: Session, e: Event): Session {
    match e
    case Type(text) => Session(Edit(sess.ui, text), sess.pending)
    case Press => Issue(sess, Click(sess.ui))
    case Key(key) => Issue(sess, KeyPress(sess.ui, key))
    case Answer(index, outcome) => Resolve(sess, index, outcome)
  }

  /** One event, with the key handler guarded like the button. */
  function StepGuarded(sess: Session, e: Event): Session {
    match e
    case Type(text) => Session(Edit(sess.ui, text), sess.pending)
    case Press => Issue(sess, Click(sess.ui))
    case Key(key) => Issue(sess, GuardedKeyPress(sess.ui, key))
    case Answer(index, outcome) => Resolve(sess, index, outcome)
  }

  function RunAsWritten(sess: Session, events: seq<Event>): Session
    decreases |events|
  {
    if |events| == 0 then sess else RunAsWritten(StepAsWritten(sess, events[0]), events[1..])
  }

  function RunGuarded(sess: Session, events: seq<Event>): Session
    decreases |events|
  {
    if |events| == 0 then sess else RunGuarded(StepGuarded(sess, events[0]), events[1..])
  }

  /** At most one call is outstanding, and the loading flag is up exactly while one is. */
  predicate OneInFlight(sess: Session) {
    && |sess.pending| <= 1
    && (sess.ui.isLoading <==> |sess.pending| == 1)
  }

  /** No trigger starts a call while one is outstanding, once keys are guarded. */
  lemma GuardedNoSecondCall(s: State, key: String)
    requires s.isLoading
    ensures Click(s).call.None? && GuardedKeyPress(s, key).call.None?
    ensures Click(s).post == s && GuardedKeyPress(s, key).post == s
  {
  }

  /** Every guarded event keeps at most one call outstanding. */
  lemma StepGuardedKeeps(sess: Session, e: Event)
    requires OneInFlight(sess)
    ensures OneInFlight(StepGuarded(sess, e))
  {
    match e
    case Type(text) =>
    case Press =>
      if !sess.ui.isLoading {
        StartedCallRaisesFlag(sess.ui);
      }
    case Key(key) =>
      if !sess.ui.isLoading && key == "Enter" {
        StartedCallRaisesFlag(sess.ui);
      }
    case Answer(index, outcome) =>
  }

  /** A started call raises the loading flag; a refused one leaves it as it was. */
  lemma StartedCallRaisesFlag(s: State)
    ensures Begin(s).call.Some? ==> Begin(s).post.isLoading
    ensures Begin(s).call.None? ==> Begin(s).post.isLoading == s.isLoading
  {
    if IsBlank(s.productId) {
    } else if s.contract.Some? {
    } else {
    }
  }

  /** From mount on, whatever the user does and in whatever order calls are answered, at most
      one call is outstanding and the loading flag tells whether there is one. */
  lemma {:induction false} GuardedRunKeeps(sess: Session, events: seq<Event>)
    requires OneInFlight(sess)
    ensures OneInFlight(RunGuarded(sess, events))
    decreases |events|
  {
    if |events| > 0 {
      StepGuardedKeeps(sess, events[0]);
      GuardedRunKeeps(StepGuarded(sess, events[0]), events[1..]);
    }
  }

  /** Every session that starts from mount keeps at most one call outstanding. */
  lemma GuardedFromStart(walletPresent: bool, events: seq<Event>)
    ensures OneInFlight(RunGuarded(Start(walletPresent), events))
  {
    GuardedRunKeeps(Start(walletPresent), events);
  }

  /** As written, typing a non-blank id, clicking, then pressing Enter before the answer
      arrives leaves two calls outstanding for that id; the first answer then drops the
      loading flag although a call is still outstanding. */
  lemma EnterWhileLoading(id: String)
    requires !IsBlank(id)
    ensures var s := RunAsWritten(Start(true), [Type(id), Press, Key("Enter")]);
      && s.pending == [id, id]
      && s.ui.isLoading
      && !OneInFlight(s)
    ensures var s := RunAsWritten(Start(true), [Type(id), Press, Key("Enter"), Answer(0, Rejected)]);
      && s.pending == [id]
      && !s.ui.isLoading
  {
    var loading := State(id, None, Some(Contract(ContractAddress)), None, true);
    var s0 := Start(true);
    var s3 := Session(loading, [id, id]);
    TypeThenClick(id);
    SecondCall(loading);
    var s4 := Resolve(s3, 0, Rejected);
    assert s4.pending == [id] && !s4.ui.isLoading;
    var three := [Type(id), Press, Key("Enter")];
    var four := three + [Answer(0, Rejected)];
    RunUnfold(s0, [Type(id), Press], Key("Enter"));
    assert [Type(id), Press] + [Key("Enter")] == three;
    assert RunAsWritten(s0, three) == s3;
    RunUnfold(s0, three, Answer(0, Rejected));
    assert four == [Type(id), Press, Key("Enter"), Answer(0, Rejected)];
  }

  lemma TypeThenClick(id: String)
    requires !IsBlank(id)
    ensures RunAsWritten(Start(true), [Type(id), Press])
         == Session(State(id, None, Some(Contract(ContractAddress)), None, true), [id])
  {
    var s1 := StepAsWritten(Start(true), Type(id));
    assert s1 == Session(State(id, None, Some(Contract(ContractAddress)), None, false), []);
    assert [Type(id), Press][1..] == [Press];
    assert RunAsWritten(Start(true), [Type(id), Press]) == RunAsWritten(s1, [Press]);
  }

  lemma SecondCall(loading: State)
    requires !IsBlank(loading.productId) && loading.contract.Some? && loading.isLoading
    ensures StepAsWritten(Session(loading, [loading.productId]), Key("Enter"))
         == Session(loading, [loading.productId, loading.productId])
  {
  }

  /** Running one more event is stepping once after the run. */
  lemma {:induction false} RunUnfold(sess: Session, events: seq<Event>, e: Event)
    ensures RunAsWritten(sess, events + [e]) == StepAsWritten(RunAsWritten(sess, events), e)
    decreases |events|
  {
    if |events| == 0 {
      assert [] + [e] == [e];
    } else {
      assert (events + [e])[1..] == events[1..] + [e];
      RunUnfold(StepAsWritten(sess, events[0]), events[1..], e);
    }
  }

  /** The same race on the sample id `"P3001"`. */
  lemma EnterWhileLoadingSample()
    ensures RunAsWritten(Start(true), [Type("P3001"), Press, Key("Enter")]).pending == ["P3001", "P3001"]
  {
    var id := "P3001";
    assert !IsWhitespace(id[0]);
    EnterWhileLoading(id);
  }
}
