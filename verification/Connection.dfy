/**
 The attachment of the Envoy to an Ambassador as a state machine: attach's select loop, the goroutine
 receiving instructions, one keep-alive goroutine per Ready, the errChan of ten slots of each
 attachment, and the attached flag they share, over any number of attachments whose goroutines may
 outlive them (ambassador/connection.go).
 */
module Connection {
  import opened Prelude

  const ERR_SLOTS := 10

  /** The select loop of attach, until it returns. */
  datatype Loop = Selecting | Detaching | Cancelling | Returned

  datatype Instruction = Ready | Other

  /** watchForInstructions: between passes, in Recv, about to dispatch, about to report an error, gone. */
  datatype Watcher = Idle | Receiving | Holding(instruction: Instruction) | Failing | Gone

  datatype KeepAlive = Ticking | Unsent | Ended

  datatype Attachment = Attachment(
    done: bool,               // the attachment's context is done
    errs: nat,                // errors waiting in its errChan
    loop: Loop,
    watcher: Watcher,
    keepAlives: seq<KeepAlive>)

  datatype State = State(
    live: bool,               // the application context
    attached: bool,
    hasDetach: bool,          // detachChan is non-nil
    atts: seq<Attachment>)

  datatype Event =
    | DialFailed
    | Attach
    | AppDone
    | Close(j: nat)                  // the Done case: flag down and return
    | TakeError(j: nat)              // the errChan case: flag down
    | Detach(j: nat, sent: bool)
    | CancelConn(j: nat)
    | Pass(j: nat)                   // the watcher looks at its context
    | Receive(j: nat, instruction: Instruction)
    | ReceiveError(j: nat)
    | Dispatch(j: nat, instruction: Instruction)
    | PutError(j: nat)
    | Tick(j: nat, i: nat)           // a keep alive went out
    | TickFailed(j: nat, i: nat)
    | TickEnd(j: nat, i: nat)
    | PutTickError(j: nat, i: nat)
    | Post(posted: bool)

  function Fresh(live: bool): Attachment {
    Attachment(!live, 0, Selecting, Idle, [])
  }

  function Initial(hasDetach: bool): State {
    State(true, false, hasDetach, [])
  }

  /** attach runs again only after its previous call returned. */
  predicate NoLoop(s: State) {
    s.atts == [] || s.atts[|s.atts| - 1].loop == Returned
  }

  predicate Has(s: State, j: nat, i: nat, pc: KeepAlive) {
    j < |s.atts| && i < |s.atts[j].keepAlives| && s.atts[j].keepAlives[i] == pc
  }

  predicate Enabled(s: State, e: Event) {
    match e
    case DialFailed => NoLoop(s)
    case Attach => NoLoop(s)
    case AppDone => s.live
    case Close(j) => j < |s.atts| && s.atts[j].loop == Selecting && s.atts[j].done
    case TakeError(j) => j < |s.atts| && s.atts[j].loop == Selecting && s.atts[j].errs > 0
    case Detach(j, sent) => j < |s.atts| && s.atts[j].loop == Detaching && sent == s.hasDetach
    case CancelConn(j) => j < |s.atts| && s.atts[j].loop == Cancelling
    case Pass(j) => j < |s.atts| && s.atts[j].watcher == Idle
    case Receive(j, _) => j < |s.atts| && s.atts[j].watcher == Receiving
    case ReceiveError(j) => j < |s.atts| && s.atts[j].watcher == Receiving
    case Dispatch(j, instruction) => j < |s.atts| && s.atts[j].watcher == Holding(instruction)
    case PutError(j) => j < |s.atts| && s.atts[j].watcher == Failing && s.atts[j].errs < ERR_SLOTS
    case Tick(j, i) => Has(s, j, i, Ticking)
    case TickFailed(j, i) => Has(s, j, i, Ticking)
    case TickEnd(j, i) => Has(s, j, i, Ticking) && s.atts[j].done
    case PutTickError(j, i) => Has(s, j, i, Unsent) && s.atts[j].errs < ERR_SLOTS
    case Post(posted) => posted == s.attached
  }

  function Local(a: Attachment, e: Event): Attachment {
    match e
    case Close(_) => a.(loop := Returned)
    case TakeError(_) => a.(loop := Detaching, errs := if a.errs == 0 then 0 else a.errs - 1)
    case Detach(_, _) => a.(loop := Cancelling)
    case CancelConn(_) => a.(loop := Selecting, done := true)
    case Pass(_) => a.(watcher := if a.done then Gone else Receiving)
    case Receive(_, instruction) => a.(watcher := Holding(instruction))
    case ReceiveError(_) => a.(watcher := Failing)
    case Dispatch(_, instruction) =>
      if instruction.Ready? then a.(watcher := Idle, keepAlives := a.keepAlives + [Ticking])
      else a.(watcher := Idle)
    case PutError(_) => a.(watcher := Gone, errs := a.errs + 1)
    case TickFailed(_, i) => if i < |a.keepAlives| then a.(keepAlives := a.keepAlives[i := Unsent]) else a
    case TickEnd(_, i) => if i < |a.keepAlives| then a.(keepAlives := a.keepAlives[i := Ended]) else a
    case PutTickError(_, i) =>
      if i < |a.keepAlives| then a.(keepAlives := a.keepAlives[i := Ended], errs := a.errs + 1) else a
    case _ => a
  }

  /** The attachment whose goroutines an event belongs to, if any. */
  function Owner(e: Event): Option<nat> {
    match e
    case DialFailed => None
    case Attach => None
    case AppDone => None
    case Post(_) => None
    case Close(j) => Some(j)
    case TakeError(j) => Some(j)
    case Detach(j, _) => Some(j)
    case CancelConn(j) => Some(j)
    case Pass(j) => Some(j)
    case Receive(j, _) => Some(j)
    case ReceiveError(j) => Some(j)
    case Dispatch(j, _) => Some(j)
    case PutError(j) => Some(j)
    case Tick(j, _) => Some(j)
    case TickFailed(j, _) => Some(j)
    case TickEnd(j, _) => Some(j)
    case PutTickError(j, _) => Some(j)
  }

  function AllDone(atts: seq<Attachment>): (r: seq<Attachment>)
    ensures |r| == |atts|
    ensures forall j | 0 <= j < |atts| :: r[j] == atts[j].(done := true)
  {
    seq(|atts|, j requires 0 <= j < |atts| => atts[j].(done := true))
  }

  function Flag(s: State, e: Event): bool {
    match e
    case Close(_) => false
    case TakeError(_) => false
    case Dispatch(_, Ready) => true
    case _ => s.attached
  }

  function Apply(s: State, e: Event): State
    requires Enabled(s, e)
  {
    if e.Attach? then s.(atts := s.atts + [Fresh(s.live)])
    else if e.AppDone? then s.(live := false, atts := AllDone(s.atts))
    else if Owner(e).Some? then
      var j := Owner(e).value;
      s.(attached := Flag(s, e), atts := s.atts[j := Local(s.atts[j], e)])
    else s
  }

  function Exec(s: State, es: seq<Event>): Option<State> {
    if es == [] then Some(s)
    else
      var t := Exec(s, es[..|es| - 1]);
      var e := es[|es| - 1];
      if t.Some? && Enabled(t.value, e) then Some(Apply(t.value, e)) else None
  }

  // ---------------------------------------------------------------- errors and detaches of one attachment

  /** What a trace has done on behalf of attachment j. */
  datatype Tally = Tally(readies: nat, puts: nat, taken: nat, detaches: nat)

  function Add(t: Tally, e: Event, j: nat): Tally {
    if Owner(e) != Some(j) then t
    else match e
      case Dispatch(_, Ready) => t.(readies := t.readies + 1)
      case PutError(_) => t.(puts := t.puts + 1)
      case PutTickError(_, _) => t.(puts := t.puts + 1)
      case TakeError(_) => t.(taken := t.taken + 1)
      case Detach(_, sent) => if sent then t.(detaches := t.detaches + 1) else t
      case _ => t
  }

  function TallyOf(es: seq<Event>, j: nat): Tally {
    if es == [] then Tally(0, 0, 0, 0) else Add(TallyOf(es[..|es| - 1], j), es[|es| - 1], j)
  }

  function Unended(ks: seq<KeepAlive>): nat {
    if ks == [] then 0
    else Unended(ks[..|ks| - 1]) + (if ks[|ks| - 1] == Ended then 0 else 1)
  }

  lemma UnendedUpdate(ks: seq<KeepAlive>, i: nat, pc: KeepAlive)
    requires i < |ks|
    ensures Unended(ks[i := pc]) == Unended(ks) - (if ks[i] == Ended then 0 else 1) + (if pc == Ended then 0 else 1)
    ensures ks[i] != Ended ==> Unended(ks) > 0
  {
    if i < |ks| - 1 {
      UnendedUpdate(ks[..|ks| - 1], i, pc);
      assert ks[i := pc][..|ks| - 1] == ks[..|ks| - 1][i := pc];
    } else {
      assert ks[i := pc][..|ks| - 1] == ks[..|ks| - 1];
    }
  }

  /**
   Every goroutine that can still send accounts for one error not yet sent; every error sent is in
   the channel or was taken; every error taken was, or is about to be, answered by one detach.
   */
  predicate Accounts(a: Attachment, live: bool, hasDetach: bool, t: Tally) {
    && |a.keepAlives| == t.readies
    && t.puts + Unended(a.keepAlives) + (if a.watcher == Gone then 0 else 1) <= 1 + t.readies
    && a.errs + t.taken == t.puts
    && (if hasDetach then t.detaches + (if a.loop == Detaching then 1 else 0) == t.taken else t.detaches == 0)
    && (a.done && live ==> t.taken > 0)
    && (a.loop != Selecting && a.loop != Returned ==> t.taken > 0)
    && (a.loop == Returned ==> a.done)
    && (live || a.done)
  }

  lemma AccountsStep(a: Attachment, live: bool, hasDetach: bool, t: Tally, e: Event, j: nat, s: State)
    requires Enabled(s, e) && Owner(e) == Some(j) && s.atts[j] == a && s.live == live && s.hasDetach == hasDetach
    requires Accounts(a, live, hasDetach, t)
    ensures Accounts(Local(a, e), live, hasDetach, Add(t, e, j))
  {
    match e {
      case TickFailed(_, i) => UnendedUpdate(a.keepAlives, i, Unsent);
      case TickEnd(_, i) => UnendedUpdate(a.keepAlives, i, Ended);
      case PutTickError(_, i) => UnendedUpdate(a.keepAlives, i, Ended);
      case Dispatch(_, instruction) =>
        assert (a.keepAlives + [Ticking])[..|a.keepAlives|] == a.keepAlives;
      case _ =>
    }
  }

  ghost predicate AllAccounts(s: State, hasDetach: bool, es: seq<Event>) {
    && s.hasDetach == hasDetach
    && (forall j: nat | j < |s.atts| :: Accounts(s.atts[j], s.live, s.hasDetach, TallyOf(es, j)))
    && (forall j: nat | j >= |s.atts| :: TallyOf(es, j) == Tally(0, 0, 0, 0))
    && (forall j: nat | j < |s.atts| - 1 :: s.atts[j].loop == Returned)
  }

  lemma TallySnoc(es: seq<Event>, e: Event, j: nat)
    ensures TallyOf(es + [e], j) == Add(TallyOf(es, j), e, j)
  {
    assert (es + [e])[..|es|] == es;
  }

  lemma LoopsReturn(s: State, e: Event)
    requires Enabled(s, e) && forall j: nat | j < |s.atts| - 1 :: s.atts[j].loop == Returned
    ensures forall j: nat | j < |Apply(s, e).atts| - 1 :: Apply(s, e).atts[j].loop == Returned
  {
  }

  lemma AllAccountsStep(s: State, es: seq<Event>, e: Event)
    requires AllAccounts(s, s.hasDetach, es) && Enabled(s, e)
    ensures AllAccounts(Apply(s, e), s.hasDetach, es + [e])
  {
    var t := Apply(s, e);
    LoopsReturn(s, e);
    forall j: nat | j < |t.atts|
      ensures Accounts(t.atts[j], t.live, t.hasDetach, TallyOf(es + [e], j))
    {
      TallySnoc(es, e, j);
      if Owner(e) == Some(j) {
        AccountsStep(s.atts[j], s.live, s.hasDetach, TallyOf(es, j), e, j, s);
      }
    }
    forall j: nat | j >= |t.atts|
      ensures TallyOf(es + [e], j) == Tally(0, 0, 0, 0)
    {
      TallySnoc(es, e, j);
    }
  }

  lemma {:induction false} Accounting(hasDetach: bool, es: seq<Event>)
    requires Exec(Initial(hasDetach), es).Some?
    ensures AllAccounts(Exec(Initial(hasDetach), es).value, hasDetach, es)
  {
    if es != [] {
      Accounting(hasDetach, es[..|es| - 1]);
      AllAccountsStep(Exec(Initial(hasDetach), es[..|es| - 1]).value, es[..|es| - 1], es[|es| - 1]);
      assert es[..|es| - 1] + [es[|es| - 1]] == es;
    }
  }

  /**
   An attachment sends at most one error per Ready and one more, no more detach signals than it took
   errors, and no more of these than were sent.
   */
  lemma ErrorsBoundDetaches(hasDetach: bool, es: seq<Event>, j: nat)
    requires Exec(Initial(hasDetach), es).Some?
    ensures var t := TallyOf(es, j); t.detaches <= t.taken <= t.puts <= 1 + t.readies
  {
    Accounting(hasDetach, es);
  }

  /** attach returning while the application is live has sent at least one detach, if there is a channel for it. */
  lemma ReturnSignalsDetach(hasDetach: bool, es: seq<Event>, j: nat)
    requires Exec(Initial(hasDetach), es).Some?
    requires var s := Exec(Initial(hasDetach), es).value;
             s.live && j < |s.atts| && s.atts[j].loop == Returned
    ensures hasDetach ==> TallyOf(es, j).detaches >= 1
    ensures TallyOf(es, j).puts >= 1
  {
    Accounting(hasDetach, es);
  }
}
