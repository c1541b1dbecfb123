/**
 The checkout attempt protocol: one component holding an idempotency key in memory and in session
 storage, and a server that keeps one transaction per key. The network may lose, delay or repeat
 any call, and the page may be reloaded at any moment.
 */
module Checkout {
  import opened Wrappers

  type Key = string

  /** The server's row for an idempotency key; a row has one key and a key at most one row. */
  datatype TransactionId = TransactionOf(key: Key)

  datatype Status = Created | Pending | Processing | Succeeded | Failed | Canceled

  predicate Terminal(status: Status) {
    status in {Succeeded, Failed, Canceled}
  }

  datatype ErrorCode = AlreadyProcessing | PaymentUnavailable | Forbidden | Rejected

  datatype Reply = Settled(status: Status, transaction: TransactionId) | Refused(code: ErrorCode)

  datatype Call = Checkout(key: Key) | Reconcile(transaction: TransactionId)

  function KeyOf(call: Call): Key {
    match call
    case Checkout(key) => key
    case Reconcile(transaction) => transaction.key
  }

  /** What session storage holds under the attempt's storage key; None is an absent item. */
  datatype Stored = Unparseable | Parsed(key: Option<Key>, transaction: Option<TransactionId>)

  /** calls are the actions the component has started and not seen the end of; isPending is calls != []. */
  datatype Client = Client(
    loaded: bool,
    attemptKey: Option<Key>,
    result: Option<Reply>,
    processing: Option<TransactionId>,
    calls: seq<Call>,
    stored: Option<Stored>)

  // ---------------------------------------------------------------- handlers

  /** The mount effect's timer. A parsed item without a string key leaves the key unset. */
  function Mounted(c: Client, drawn: Key): Client {
    match c.stored
    case Some(Parsed(key, transaction)) =>
      c.(loaded := true,
         attemptKey := if key.Some? then key else c.attemptKey,
         processing := if transaction.Some? then transaction else c.processing)
    case _ =>
      c.(loaded := true, attemptKey := Some(drawn), stored := Some(Parsed(Some(drawn), None)))
  }

  function Persisted(c: Client, key: Key, transaction: TransactionId): Client {
    c.(processing := Some(transaction), stored := Some(Parsed(Some(key), Some(transaction))))
  }

  function Cleared(c: Client): Client {
    c.(processing := None, stored := None)
  }

  function SubmitCall(c: Client): Option<Call> {
    if c.attemptKey.None? || c.calls != [] then None else Some(Checkout(c.attemptKey.value))
  }

  function ReconcileTarget(c: Client): Option<TransactionId> {
    match c.result
    case Some(Settled(Processing, transaction)) => Some(transaction)
    case _ => c.processing
  }

  function ReconcileCall(c: Client): Option<Call> {
    if ReconcileTarget(c).None? || c.calls != [] then None else Some(Reconcile(ReconcileTarget(c).value))
  }

  function Started(c: Client, call: Option<Call>): Client {
    if call.None? then c else c.(calls := c.calls + [call.value])
  }

  /** What the transition does once its action answers. */
  function Answered(c: Client, call: Call, next: Reply): Client
    requires c.calls != []
  {
    var seen := c.(calls := c.calls[1..], result := Some(next));
    match next
    case Refused(_) => seen
    case Settled(status, transaction) =>
      if status != Processing then Cleared(seen)
      else if call.Checkout? then Persisted(seen, call.key, transaction)
      else seen
  }

  function NewAttempt(c: Client, drawn: Key): Client {
    c.(attemptKey := Some(drawn), result := None, processing := None, stored := Some(Parsed(Some(drawn), None)))
  }

  /** A reload, or an action whose response is lost: the component is gone, the session is not. */
  function Reloaded(c: Client): Client {
    Client(false, None, None, None, [], c.stored)
  }

  datatype Control = CheckStatus | TryAgain | ContinueToPlan | Form

  /** The one control the component offers. */
  function Offered(c: Client): Control {
    match c.result
    case Some(Settled(Processing, _)) => CheckStatus
    case None => if c.processing.Some? then CheckStatus else Form
    case Some(Settled(Failed, _)) => TryAgain
    case Some(Settled(Canceled, _)) => TryAgain
    case Some(Settled(Succeeded, _)) => ContinueToPlan
    case Some(_) => Form
  }

  class CheckoutExperience {
    var loaded: bool
    var attemptKey: Option<Key>
    var result: Option<Reply>
    var processingTransactionId: Option<TransactionId>
    var calls: seq<Call>
    var sessionItem: Option<Stored>

    function View(): Client
      reads this
    {
      Client(loaded, attemptKey, result, processingTransactionId, calls, sessionItem)
    }

    constructor (item: Option<Stored>)
      ensures View() == Client(false, None, None, None, [], item)
    {
      loaded, attemptKey, result, processingTransactionId, calls := false, None, None, None, [];
      sessionItem := item;
    }

    method MountEffect(drawn: Key)
      modifies this
      ensures View() == Mounted(old(View()), drawn)
    {
      loaded := true;
      if sessionItem.Some? && sessionItem.value.Parsed? {
        if sessionItem.value.key.Some? {
          attemptKey := sessionItem.value.key;
        }
        if sessionItem.value.transaction.Some? {
          processingTransactionId := sessionItem.value.transaction;
        }
        return;
      }
      attemptKey := Some(drawn);
      sessionItem := Some(Parsed(Some(drawn), None));
    }

    method PersistProcessing(key: Key, transaction: TransactionId)
      modifies this`processingTransactionId, this`sessionItem
      ensures View() == Persisted(old(View()), key, transaction)
    {
      processingTransactionId := Some(transaction);
      sessionItem := Some(Parsed(Some(key), Some(transaction)));
    }

    method ClearAttempt()
      modifies this`processingTransactionId, this`sessionItem
      ensures View() == Cleared(old(View()))
    {
      sessionItem := None;
      processingTransactionId := None;
    }

    method HandleSubmit() returns (call: Option<Call>)
      modifies this`calls
      ensures call == SubmitCall(old(View())) && View() == Started(old(View()), call)
    {
      if attemptKey.None? || calls != [] {
        return None;
      }
      calls := calls + [Checkout(attemptKey.value)];
      return Some(Checkout(attemptKey.value));
    }

    method HandleReconcile() returns (call: Option<Call>)
      modifies this`calls
      ensures call == ReconcileCall(old(View())) && View() == Started(old(View()), call)
    {
      var target := processingTransactionId;
      if result.Some? && result.value.Settled? && result.value.status == Processing {
        target := Some(result.value.transaction);
      }
      if target.None? || calls != [] {
        return None;
      }
      calls := calls + [Reconcile(target.value)];
      return Some(Reconcile(target.value));
    }

    method ActionAnswered(call: Call, next: Reply)
      requires calls != []
      modifies this
      ensures View() == Answered(old(View()), call, next)
    {
      calls := calls[1..];
      result := Some(next);
      if next.Settled? {
        if next.status != Processing {
          ClearAttempt();
        } else if call.Checkout? {
          PersistProcessing(call.key, next.transaction);
        }
      }
    }

    method BeginNewAttempt(drawn: Key)
      modifies this
      ensures View() == NewAttempt(old(View()), drawn)
    {
      attemptKey := Some(drawn);
      result := None;
      processingTransactionId := None;
      sessionItem := Some(Parsed(Some(drawn), None));
    }
  }

  // ------------------------------------------------------------------ server

  /** Failing is an error before the row exists or is looked at; Says is never Created or Pending. */
  datatype Provider = Failing | Unreachable | Says(status: Status)

  predicate Plausible(p: Provider) {
    p.Says? ==> p.status in {Processing, Succeeded, Failed, Canceled}
  }

  type Rows = map<Key, Status>

  predicate Busy(rows: Rows, key: Key) {
    exists k | k in rows :: k != key && !Terminal(rows[k])
  }

  /** startCheckout and reconcileCheckout, one call at a time. */
  function Serve(rows: Rows, call: Call, provider: Provider): (Rows, Reply) {
    var key := KeyOf(call);
    if provider.Failing? then (rows, Refused(Rejected))
    else if key in rows && Terminal(rows[key]) then (rows, Settled(rows[key], TransactionOf(key)))
    else
      match call
      case Checkout(_) =>
        if key !in rows && Busy(rows, key) then (rows, Refused(AlreadyProcessing))
        else if provider.Unreachable? then
          (if key in rows then rows else rows[key := Created], Refused(PaymentUnavailable))
        else (rows[key := provider.status], Settled(provider.status, TransactionOf(key)))
      case Reconcile(_) =>
        if key !in rows then (rows, Refused(Forbidden))
        else if rows[key] == Created || provider.Unreachable? then (rows, Refused(PaymentUnavailable))
        else (rows[key := provider.status], Settled(provider.status, TransactionOf(key)))
  }

  // ------------------------------------------------------------------ system

  /**
   sent are the calls ever made and answers the replies ever given; generated and acknowledged are
   history: the keys drawn so far, and those whose terminal result the component has seen.
   */
  datatype System = System(
    client: Client,
    sent: set<Call>,
    answers: set<(Call, Reply)>,
    rows: Rows,
    generated: set<Key>,
    acknowledged: set<Key>)

  datatype Event =
    | Tick(drawn: Key)
    | Submit
    | Check
    | Restart(drawn: Key)
    | Deliver(call: Call, provider: Provider)
    | Receive(reply: Reply)
    | Vanish
    | Advance(key: Key, status: Status)

  /** Handlers run only from the control that is shown; a drawn key is new. */
  predicate Enabled(s: System, e: Event) {
    match e
    case Tick(drawn) => !s.client.loaded && drawn !in s.generated
    case Submit => Offered(s.client) == Form
    case Check => Offered(s.client) == CheckStatus
    case Restart(drawn) => Offered(s.client) == TryAgain && s.client.calls == [] && drawn !in s.generated
    case Deliver(call, provider) => call in s.sent && Plausible(provider)
    case Receive(reply) => s.client.calls != [] && (s.client.calls[0], reply) in s.answers
    case Vanish => true
    case Advance(key, status) =>
      key in s.rows && s.rows[key] == Processing && status in {Processing, Succeeded, Failed, Canceled}
  }

  function Sending(s: System, call: Option<Call>): System {
    s.(client := Started(s.client, call), sent := if call.None? then s.sent else s.sent + {call.value})
  }

  function Step(s: System, e: Event): System
    requires Enabled(s, e)
  {
    match e
    case Tick(drawn) =>
      s.(client := Mounted(s.client, drawn),
         generated := if s.client.stored.Some? && s.client.stored.value.Parsed? then s.generated
                      else s.generated + {drawn})
    case Submit => Sending(s, SubmitCall(s.client))
    case Check => Sending(s, ReconcileCall(s.client))
    case Restart(drawn) => s.(client := NewAttempt(s.client, drawn), generated := s.generated + {drawn})
    case Deliver(call, provider) =>
      var (rows, reply) := Serve(s.rows, call, provider);
      s.(rows := rows, answers := s.answers + {(call, reply)})
    case Receive(reply) =>
      s.(client := Answered(s.client, s.client.calls[0], reply),
         acknowledged := if reply.Settled? && Terminal(reply.status) then s.acknowledged + {reply.transaction.key}
                         else s.acknowledged)
    case Vanish => s.(client := Reloaded(s.client))
    case Advance(key, status) => s.(rows := s.rows[key := status])
  }

  predicate AllEnabled(s: System, events: seq<Event>)
    decreases |events|
  {
    events == [] || (Enabled(s, events[0]) && AllEnabled(Step(s, events[0]), events[1..]))
  }

  function Run(s: System, events: seq<Event>): System
    requires AllEnabled(s, events)
    decreases |events|
  {
    if events == [] then s else Run(Step(s, events[0]), events[1..])
  }

  /** A browser session with no item or an unreadable one, and a server with nothing unresolved. */
  ghost predicate Initial(s: System) {
    && s.client == Client(false, None, None, None, [], s.client.stored)
    && s.client.stored in {None, Some(Unparseable)}
    && s.sent == {} && s.answers == {} && s.acknowledged == {} && s.rows.Keys <= s.generated
    && forall k | k in s.rows :: Terminal(s.rows[k])
  }

  // --------------------------------------------------------------- invariant

  function Active(s: System): set<Key> {
    match s.client.stored
    case Some(Parsed(Some(key), _)) => {key}
    case _ => {}
  }

  function Submitted(s: System): set<Key> {
    set c | c in s.sent && c.Checkout? :: c.key
  }

  function Unresolved(s: System): set<Key> {
    set k | k in s.rows && !Terminal(s.rows[k])
  }

  /** Until the first mount the item may be unreadable; from then on it is one the component wrote. */
  ghost predicate SessionOk(s: System) {
    && (s.client.stored.Some? && (s.client.loaded || !s.client.stored.value.Unparseable?) ==>
          && s.client.stored.value.Parsed? && s.client.stored.value.key.Some?
          && s.client.stored.value.transaction
             in {None, Some(TransactionOf(s.client.stored.value.key.value))})
    && Active(s) <= s.generated
  }

  ghost predicate ClientOk(s: System) {
    var c := s.client;
    if !c.loaded then c == Client(false, None, None, None, [], c.stored)
    else
      && c.attemptKey.Some? && c.attemptKey.value in s.generated
      && (c.stored.Some? ==> Active(s) == {c.attemptKey.value} && c.processing == c.stored.value.transaction)
      && (c.stored.None? ==> c.attemptKey.value in s.acknowledged && c.processing.None?)
      && |c.calls| <= 1 && (forall call | call in c.calls :: call in s.sent && KeyOf(call) == c.attemptKey.value)
      && ((exists call | call in c.calls :: call.Reconcile?) ==> c.processing.Some?)
      && (c.result.Some? && c.result.value.Settled? ==>
            && c.result.value.transaction == TransactionOf(c.attemptKey.value)
            && c.result.value.status in {Processing, Succeeded, Failed, Canceled}
            && (c.stored.None? <==> Terminal(c.result.value.status))
            && (c.result.value.status == Processing ==> c.processing.Some?))
      && (c.stored.None? ==> c.calls == [] && c.result.Some? && c.result.value.Settled?)
  }

  ghost predicate NetworkOk(s: System) {
    && (forall c | c in s.sent :: KeyOf(c) in s.acknowledged + Active(s))
    && (forall a | a in s.answers ::
          a.1.Settled? ==>
            && a.1.transaction == TransactionOf(KeyOf(a.0)) && a.1.transaction.key in s.rows
            && a.1.status in {Processing, Succeeded, Failed, Canceled}
            && s.rows[a.1.transaction.key] != Created
            && (Terminal(a.1.status) ==> s.rows[a.1.transaction.key] == a.1.status))
  }

  ghost predicate ServerOk(s: System) {
    && s.acknowledged <= s.generated && s.rows.Keys <= s.generated
    && (forall k | k in s.acknowledged :: k in s.rows && Terminal(s.rows[k]))
    && Unresolved(s) <= Active(s) && Active(s) !! s.acknowledged
  }

  /** A remembered transaction is one the provider has seen, and a terminal result is the row's own. */
  ghost predicate SeenOk(s: System) {
    && (s.client.stored.Some? && s.client.stored.value.Parsed? && s.client.stored.value.transaction.Some? ==>
          && s.client.stored.value.transaction.value.key in s.rows
          && s.rows[s.client.stored.value.transaction.value.key] != Created)
    && (s.client.result.Some? && s.client.result.value.Settled? && Terminal(s.client.result.value.status) ==>
          && s.client.result.value.transaction.key in s.rows
          && s.rows[s.client.result.value.transaction.key] == s.client.result.value.status)
  }

  ghost predicate Inv(s: System) {
    SessionOk(s) && ClientOk(s) && NetworkOk(s) && ServerOk(s) && SeenOk(s)
  }

  lemma InitialInv(s: System)
    requires Initial(s)
    ensures Inv(s)
  {
  }

  lemma TickInv(s: System, drawn: Key)
    requires Inv(s) && Enabled(s, Tick(drawn))
    ensures Inv(Step(s, Tick(drawn)))
  {
  }

  lemma SubmitInv(s: System)
    requires Inv(s) && Enabled(s, Submit)
    ensures Inv(Step(s, Submit))
  {
  }

  lemma CheckInv(s: System)
    requires Inv(s) && Enabled(s, Check)
    ensures Inv(Step(s, Check))
  {
  }

  lemma RestartInv(s: System, drawn: Key)
    requires Inv(s) && Enabled(s, Restart(drawn))
    ensures Inv(Step(s, Restart(drawn)))
  {
  }

  lemma DeliverInv(s: System, call: Call, provider: Provider)
    requires Inv(s) && Enabled(s, Deliver(call, provider))
    ensures Inv(Step(s, Deliver(call, provider)))
  {
    DeliverNetwork(s, call, provider);
    hide NetworkOk;
  }

  lemma DeliverNetwork(s: System, call: Call, provider: Provider)
    requires Inv(s) && Enabled(s, Deliver(call, provider))
    ensures NetworkOk(Step(s, Deliver(call, provider)))
  {
    hide ClientOk, SeenOk, Busy;
  }

  lemma ReceiveInv(s: System, reply: Reply)
    requires Inv(s) && Enabled(s, Receive(reply))
    ensures Inv(Step(s, Receive(reply)))
  {
    var call := s.client.calls[0];
    assert call in s.client.calls && (call, reply) in s.answers;
    var t := Step(s, Receive(reply));
    if reply.Settled? && Terminal(reply.status) {
      assert KeyOf(call) !in Unresolved(s);
    }
    assert ServerOk(t);
  }

  lemma OtherInv(s: System, e: Event)
    requires Inv(s) && Enabled(s, e) && (e.Vanish? || e.Advance?)
    ensures Inv(Step(s, e))
  {
  }

  lemma StepInv(s: System, e: Event)
    requires Inv(s) && Enabled(s, e)
    ensures Inv(Step(s, e))
  {
    hide *;
    match e
    case Tick(drawn) => TickInv(s, drawn);
    case Submit => SubmitInv(s);
    case Check => CheckInv(s);
    case Restart(drawn) => RestartInv(s, drawn);
    case Deliver(call, provider) => DeliverInv(s, call, provider);
    case Receive(reply) => ReceiveInv(s, reply);
    case _ => OtherInv(s, e);
  }

  lemma {:induction false} RunInv(s: System, events: seq<Event>)
    requires Inv(s) && AllEnabled(s, events)
    ensures Inv(Run(s, events))
    decreases |events|
  {
    if events != [] {
      hide Inv, Step, Enabled;
      StepInv(s, events[0]);
      RunInv(Step(s, events[0]), events[1..]);
    }
  }

  // -------------------------------------------------------------------- runs

  /**
   Whatever happens in whatever order: one action in flight at most; the stored key, when there is
   one, is the key in memory; every key submitted, except the one in the session, has had its
   terminal result seen; and the server never has two unresolved transactions.
   */
  lemma RunsAreSafe(s: System, events: seq<Event>)
    requires Initial(s) && AllEnabled(s, events)
    ensures var t := Run(s, events);
            && |t.client.calls| <= 1
            && (t.client.loaded && t.client.stored.Some? ==>
                  && t.client.stored.value.Parsed? && t.client.attemptKey.Some?
                  && t.client.stored.value.key == t.client.attemptKey)
            && Submitted(t) <= t.acknowledged + Active(t)
            && |Submitted(t)| <= 1 + |t.acknowledged|
            && |Unresolved(t)| <= 1
  {
    InitialInv(s);
    RunInv(s, events);
    hide AllEnabled, Run, Initial;
    var t := Run(s, events);
    KeysAccountedFor(t);
  }

  lemma KeysAccountedFor(t: System)
    requires Inv(t)
    ensures Submitted(t) <= t.acknowledged + Active(t)
    ensures |Submitted(t)| <= 1 + |t.acknowledged|
    ensures |Unresolved(t)| <= 1
  {
    forall k | k in Submitted(t)
      ensures k in t.acknowledged + Active(t)
    {
      assert Checkout(k) in t.sent;
      assert KeyOf(Checkout(k)) == k;
    }
    Smaller(Submitted(t), t.acknowledged + Active(t));
    Smaller(Unresolved(t), Active(t));
  }

  lemma Smaller(a: set<Key>, b: set<Key>)
    requires a <= b
    ensures |a| <= |b|
  {
    assert b == a + (b - a);
  }

  /** The server's guard against a second checkout in progress never fires for this component. */
  lemma GuardNeverFires(s: System, events: seq<Event>, call: Call, provider: Provider)
    requires Initial(s) && AllEnabled(s, events) && call in Run(s, events).sent
    ensures Serve(Run(s, events).rows, call, provider).1 != Refused(AlreadyProcessing)
  {
    InitialInv(s);
    RunInv(s, events);
    hide AllEnabled, Run, Initial;
    var t := Run(s, events);
    if KeyOf(call) !in t.rows {
      assert KeyOf(call) in t.acknowledged + Active(t);
      OnlyThisOne(t, KeyOf(call));
    }
  }

  lemma OnlyThisOne(t: System, key: Key)
    requires Unresolved(t) <= {key}
    ensures !Busy(t.rows, key)
  {
    forall k | k in t.rows && !Terminal(t.rows[k])
      ensures k == key
    {
      assert k in Unresolved(t);
    }
  }

  function Open(rows: Rows): set<Key> {
    set k | k in rows && !Terminal(rows[k])
  }

  /**
   That guard is the server's own: whoever calls it, with whatever keys, it never opens a transaction
   beside another one, and a terminal row is never changed.
   */
  lemma OneOpenForAnyone(rows: Rows, call: Call, provider: Provider)
    requires |Open(rows)| <= 1
    ensures var after := Serve(rows, call, provider).0;
            && |Open(after)| <= 1
            && (forall k | k in rows && Terminal(rows[k]) :: k in after && after[k] == rows[k])
            && (forall k | k in after && k !in rows :: call == Checkout(k))
  {
    var key, after := KeyOf(call), Serve(rows, call, provider).0;
    if Open(after) <= Open(rows) {
      Smaller(Open(after), Open(rows));
    } else {
      assert !Busy(rows, key);
      assert Open(rows) == {};
      assert Open(after) <= {key};
      Smaller(Open(after), {key});
    }
  }

  /** After a reload or a lost response the next mount resumes the attempt: same key, nothing drawn. */
  lemma ReloadResumes(s: System, events: seq<Event>, drawn: Key)
    requires Initial(s) && AllEnabled(s, events)
    requires var t := Run(s, events);
             t.client.loaded && t.client.stored.Some? && drawn !in t.generated
    ensures var t := Run(s, events);
            var back := Step(Step(t, Vanish), Tick(drawn));
            && back.client.attemptKey == t.client.attemptKey
            && back.client.processing == t.client.processing
            && back.client.calls == [] && back.generated == t.generated && back.client.stored == t.client.stored
  {
    InitialInv(s);
    RunInv(s, events);
    hide AllEnabled, Run, Initial;
  }

  // ---------------------------------------------------------------- progress

  /** A state some run ends in. */
  ghost predicate Reachable(t: System) {
    exists s, events :: Initial(s) && AllEnabled(s, events) && t == Run(s, events)
  }

  lemma ReachableInv(t: System)
    requires Reachable(t)
    ensures Inv(t)
  {
    var s, events :| Initial(s) && AllEnabled(s, events) && t == Run(s, events);
    InitialInv(s);
    RunInv(s, events);
  }

  /**
   The control a loaded component shows is decided by the server's row and the session: a stored item
   means the attempt is open, and without one the row of the held key is terminal in the way shown.
   */
  lemma OfferedIsExact(t: System)
    requires Reachable(t) && t.client.loaded
    ensures t.client.attemptKey.Some?
    ensures var c, key := t.client, t.client.attemptKey.value;
            && (Offered(c) == ContinueToPlan <==> c.stored.None? && key in t.rows && t.rows[key] == Succeeded)
            && (Offered(c) == TryAgain <==> c.stored.None? && key in t.rows && t.rows[key] in {Failed, Canceled})
            && (Offered(c) in {Form, CheckStatus} <==> c.stored.Some?)
            && (Offered(c) == CheckStatus <==>
                  && c.stored.Some? && c.stored.value.Parsed? && c.stored.value.transaction.Some?
                  && !(c.result.Some? && c.result.value.Refused?))
            && (key in t.acknowledged <==> c.stored.None?)
  {
    ReachableInv(t);
    hide Reachable, NetworkOk;
  }

  /** Confirming starts exactly one call: the checkout of the key that is both held and stored. */
  lemma SubmitSends(t: System)
    requires Reachable(t) && t.client.loaded && t.client.calls == [] && Offered(t.client) == Form
    ensures t.client.attemptKey.Some? && t.client.stored.Some? && t.client.stored.value.Parsed?
    ensures var key := t.client.attemptKey.value;
            && t.client.stored.value.key == Some(key)
            && Enabled(t, Submit)
            && Step(t, Submit) == t.(client := t.client.(calls := [Checkout(key)]), sent := t.sent + {Checkout(key)})
  {
    ReachableInv(t);
    hide Reachable, NetworkOk, ServerOk, SeenOk;
  }

  /** Checking starts exactly one call: the reconcile of the remembered transaction, the only unresolved one. */
  lemma CheckSends(t: System)
    requires Reachable(t) && t.client.loaded && t.client.calls == [] && Offered(t.client) == CheckStatus
    ensures t.client.attemptKey.Some? && t.client.stored.Some? && t.client.stored.value.Parsed?
    ensures var key := t.client.attemptKey.value;
            var call := Reconcile(TransactionOf(key));
            && t.client.stored.value.transaction == Some(TransactionOf(key))
            && key in t.rows && Unresolved(t) <= {key}
            && Enabled(t, Check)
            && Step(t, Check) == t.(client := t.client.(calls := [call]), sent := t.sent + {call})
  {
    ReachableInv(t);
    hide Reachable, NetworkOk;
  }

  /** A new attempt has a key that was never submitted, and offers the form again. */
  lemma RestartIsFresh(t: System, drawn: Key)
    requires Reachable(t) && Enabled(t, Restart(drawn))
    ensures var u := Step(t, Restart(drawn));
            && u.client.attemptKey == Some(drawn) && u.client.stored == Some(Parsed(Some(drawn), None))
            && drawn !in Submitted(u) && drawn !in u.acknowledged && drawn !in u.rows
            && Offered(u.client) == Form && u.client.calls == []
  {
    ReachableInv(t);
    hide Reachable, SeenOk;
    KeysAccountedFor(t);
  }

  /** The user's step, the answer of a provider that succeeds, and its reception. */
  function Round(t: System, e: Event): seq<Event>
    requires e in {Submit, Check} && Enabled(t, e) && Step(t, e).client.calls != []
  {
    var u := Step(t, e);
    var call := u.client.calls[0];
    [e, Deliver(call, Says(Succeeded)), Receive(Serve(u.rows, call, Says(Succeeded)).1)]
  }

  lemma ThreeSteps(t: System, e: Event, f: Event, g: Event)
    requires Enabled(t, e) && Enabled(Step(t, e), f) && Enabled(Step(Step(t, e), f), g)
    ensures AllEnabled(t, [e, f, g]) && Run(t, [e, f, g]) == Step(Step(Step(t, e), f), g)
  {
    hide Enabled, Step;
    var t1 := Step(t, e);
    var t2 := Step(t1, f);
    var t3 := Step(t2, g);
    assert [e, f, g][1..] == [f, g] && [f, g][1..] == [g] && [g][1..] == [];
    assert AllEnabled(t3, []) && Run(t3, []) == t3;
    assert AllEnabled(t2, [g]) && Run(t2, [g]) == t3;
    assert AllEnabled(t1, [f, g]) && Run(t1, [f, g]) == t3;
  }

  lemma {:induction false} RunAppend(t: System, a: seq<Event>, b: seq<Event>)
    requires AllEnabled(t, a) && AllEnabled(Run(t, a), b)
    ensures AllEnabled(t, a + b) && Run(t, a + b) == Run(Run(t, a), b)
    decreases |a|
  {
    hide Enabled, Step;
    if a == [] {
      assert a + b == b;
    } else {
      assert (a + b)[0] == a[0] && (a + b)[1..] == a[1..] + b;
      RunAppend(Step(t, a[0]), a[1..], b);
    }
  }

  /** Whether the component is idle on an open attempt, and with which control. */
  function Move(t: System): Event {
    if Offered(t.client) == Form then Submit else Check
  }

  /** One round trip settles the open attempt; it succeeds unless the row had ended in another way before. */
  lemma RoundSettles(t: System)
    requires Inv(t) && t.client.loaded && t.client.calls == [] && Offered(t.client) in {Form, CheckStatus}
    ensures Enabled(t, Move(t)) && |Step(t, Move(t)).client.calls| == 1
    ensures AllEnabled(t, Round(t, Move(t)))
    ensures var u := Run(t, Round(t, Move(t)));
            && u.client.loaded && u.client.calls == [] && u.client.attemptKey == t.client.attemptKey
            && t.client.attemptKey.Some? && t.client.attemptKey.value in u.acknowledged
            && u.generated == t.generated
            && (Offered(u.client) == ContinueToPlan || Offered(u.client) == TryAgain)
            && (!(t.client.attemptKey.value in t.rows && Terminal(t.rows[t.client.attemptKey.value])) ==>
                  Offered(u.client) == ContinueToPlan)
  {
    var e := Move(t);
    var u := Step(t, e);
    IdleCall(t);
    var call := u.client.calls[0];
    var (rows, reply) := Serve(u.rows, call, Says(Succeeded));
    AnswerSettles(t, call);
    hide Inv, Run, AllEnabled, Busy, Serve;
    AfterRound(t, call, rows, reply);
    ThreeSteps(t, e, Deliver(call, Says(Succeeded)), Receive(reply));
  }

  /** The three steps one by one. */
  lemma AfterRound(t: System, call: Call, rows: Rows, reply: Reply)
    requires Enabled(t, Move(t)) && t.client.loaded && t.client.attemptKey == Some(KeyOf(call))
    requires Step(t, Move(t)) == t.(client := t.client.(calls := [call]), sent := t.sent + {call})
    requires (rows, reply) == Serve(t.rows, call, Says(Succeeded))
    requires reply.Settled? && Terminal(reply.status) && reply.transaction.key == KeyOf(call)
    ensures Enabled(Step(t, Move(t)), Deliver(call, Says(Succeeded)))
    ensures Enabled(Step(Step(t, Move(t)), Deliver(call, Says(Succeeded))), Receive(reply))
    ensures var u := Step(Step(Step(t, Move(t)), Deliver(call, Says(Succeeded))), Receive(reply));
            && u.client.loaded && u.client.calls == [] && u.client.attemptKey == t.client.attemptKey
            && KeyOf(call) in u.acknowledged && u.generated == t.generated
            && Offered(u.client) == if reply.status == Succeeded then ContinueToPlan else TryAgain
  {
    hide Move, Serve;
    assert [call][0] == call;
  }

  /** What the idle component sends. */
  lemma IdleCall(t: System)
    requires Inv(t) && t.client.loaded && t.client.calls == [] && Offered(t.client) in {Form, CheckStatus}
    ensures t.client.attemptKey.Some? && t.client.stored.Some?
    ensures var key := t.client.attemptKey.value;
            var call := if Offered(t.client) == Form then Checkout(key) else Reconcile(TransactionOf(key));
            && Enabled(t, Move(t))
            && Step(t, Move(t)) == t.(client := t.client.(calls := [call]), sent := t.sent + {call})
            && (call.Reconcile? ==> key in t.rows && t.rows[key] != Created)
            && Unresolved(t) <= {key}
  {
    hide NetworkOk;
  }

  lemma AnswerSettles(t: System, call: Call)
    requires Unresolved(t) <= {KeyOf(call)}
    requires call.Reconcile? ==> KeyOf(call) in t.rows && t.rows[KeyOf(call)] != Created
    ensures var reply := Serve(t.rows, call, Says(Succeeded)).1;
            && reply.Settled? && Terminal(reply.status) && reply.transaction.key == KeyOf(call)
            && (!(KeyOf(call) in t.rows && Terminal(t.rows[KeyOf(call)])) ==> reply.status == Succeeded)
            && (KeyOf(call) in t.rows && Terminal(t.rows[KeyOf(call)]) ==> reply.status == t.rows[KeyOf(call)])
  {
    if call.Checkout? && call.key !in t.rows {
      OnlyThisOne(t, call.key);
    }
  }

  /** What a settled component has to show for it. */
  lemma SettledIsSeen(t: System)
    requires Inv(t) && t.client.loaded && Offered(t.client) in {TryAgain, ContinueToPlan}
    ensures t.client.attemptKey.Some? && t.client.stored.None? && t.client.attemptKey.value in t.acknowledged
    ensures Offered(t.client) == ContinueToPlan ==>
              t.client.attemptKey.value in t.rows && t.rows[t.client.attemptKey.value] == Succeeded
  {
    hide NetworkOk;
  }

  lemma AfterRestart(t: System, drawn: Key)
    requires Inv(t) && t.client.loaded && t.client.calls == [] && Offered(t.client) == TryAgain && drawn !in t.generated
    ensures Enabled(t, Restart(drawn))
    ensures var u := Step(t, Restart(drawn));
            && u.client.loaded && u.client.calls == [] && Offered(u.client) == Form
            && u.client.attemptKey == Some(drawn) && drawn !in u.rows
    ensures AllEnabled(t, [Restart(drawn)]) && Run(t, [Restart(drawn)]) == Step(t, Restart(drawn))
  {
    hide NetworkOk, SeenOk, SessionOk, ClientOk;
    assert [Restart(drawn)][1..] == [];
  }

  /** From a settled component that did not succeed, a new attempt and one round trip do. */
  lemma RetrySucceeds(t: System, drawn: Key) returns (more: seq<Event>)
    requires Inv(t) && t.client.loaded && t.client.calls == [] && drawn !in t.generated
    requires Offered(t.client) in {TryAgain, ContinueToPlan}
    ensures AllEnabled(t, more) && (forall e | e in more :: !e.Vanish? && !e.Tick?)
    ensures Run(t, more).client.loaded && Offered(Run(t, more).client) == ContinueToPlan && Inv(Run(t, more))
  {
    if Offered(t.client) == ContinueToPlan {
      return [];
    }
    AfterRestart(t, drawn);
    StepInv(t, Restart(drawn));
    var u := Step(t, Restart(drawn));
    RoundSettles(u);
    var round := Round(u, Move(u));
    hide Inv, Enabled, Step, Offered, Serve;
    RunInv(u, round);
    RunAppend(t, [Restart(drawn)], round);
    return [Restart(drawn)] + round;
  }

  lemma OnlyFourControls(c: Client)
    ensures Offered(c) in {Form, CheckStatus, TryAgain, ContinueToPlan}
  {
  }

  /**
   No run gets the component into a corner: from every reachable idle state some further steps, without a
   reload, end with the payment succeeded, its key acknowledged and the way to the plan shown.
   */
  lemma SuccessIsReachable(t: System, drawn: Key) returns (more: seq<Event>)
    requires Reachable(t) && t.client.loaded && t.client.calls == [] && drawn !in t.generated
    ensures AllEnabled(t, more) && (forall e | e in more :: !e.Vanish? && !e.Tick?)
    ensures var u := Run(t, more);
            && Offered(u.client) == ContinueToPlan && u.client.attemptKey.Some?
            && u.client.attemptKey.value in u.acknowledged
            && u.client.attemptKey.value in u.rows && u.rows[u.client.attemptKey.value] == Succeeded
  {
    ReachableInv(t);
    more := IdleSucceeds(t, drawn);
    hide Reachable, AllEnabled, Run, Inv;
    SettledIsSeen(Run(t, more));
  }

  lemma IdleSucceeds(t: System, drawn: Key) returns (more: seq<Event>)
    requires Inv(t) && t.client.loaded && t.client.calls == [] && drawn !in t.generated
    ensures AllEnabled(t, more) && (forall e | e in more :: !e.Vanish? && !e.Tick?)
    ensures Run(t, more).client.loaded && Offered(Run(t, more).client) == ContinueToPlan && Inv(Run(t, more))
  {
    OnlyFourControls(t.client);
    if Offered(t.client) in {TryAgain, ContinueToPlan} {
      more := RetrySucceeds(t, drawn);
    } else {
      RoundSettles(t);
      var round := Round(t, Move(t));
      hide Inv, Enabled, Step, Offered, Serve;
      RunInv(t, round);
      var rest := RetrySucceeds(Run(t, round), drawn);
      RunAppend(t, round, rest);
      return round + rest;
    }
  }

  /** From any other reachable state a reload and the next mount lead to such an idle state. */
  lemma ReloadIsIdle(t: System, drawn: Key)
    requires Inv(t) && drawn !in t.generated
    ensures AllEnabled(t, [Vanish, Tick(drawn)])
    ensures var u := Run(t, [Vanish, Tick(drawn)]);
            u.client.loaded && u.client.calls == [] && u.generated <= t.generated + {drawn}
  {
    hide Inv;
    var u := Step(t, Vanish);
    assert [Vanish, Tick(drawn)][1..] == [Tick(drawn)] && [Tick(drawn)][1..] == [];
    assert Enabled(t, Vanish) && Enabled(u, Tick(drawn));
    assert AllEnabled(Step(u, Tick(drawn)), []) && Run(Step(u, Tick(drawn)), []) == Step(u, Tick(drawn));
    assert AllEnabled(u, [Tick(drawn)]) && Run(u, [Tick(drawn)]) == Step(u, Tick(drawn));
  }

  /** Whatever has happened, with a call in flight, lost or never answered, the payment can still succeed. */
  lemma SuccessAfterAnyRun(t: System, first: Key, second: Key) returns (more: seq<Event>)
    requires Reachable(t) && first != second && first !in t.generated && second !in t.generated
    ensures AllEnabled(t, more)
    ensures var u := Run(t, more);
            && Offered(u.client) == ContinueToPlan && u.client.attemptKey.Some?
            && u.client.attemptKey.value in u.acknowledged
            && u.client.attemptKey.value in u.rows && u.rows[u.client.attemptKey.value] == Succeeded
  {
    ReachableInv(t);
    hide Reachable, AllEnabled, Run, Inv;
    ReloadIsIdle(t, first);
    RunInv(t, [Vanish, Tick(first)]);
    var rest := IdleSucceeds(Run(t, [Vanish, Tick(first)]), second);
    RunAppend(t, [Vanish, Tick(first)], rest);
    more := [Vanish, Tick(first)] + rest;
    SettledIsSeen(Run(t, more));
  }

  // --------------------------------------------------- unusable session items

  /** The mount effect ends with a key exactly when the item is absent, unparseable or has a string key. */
  lemma MountGivesKeyIff(c: Client, drawn: Key)
    requires c == Client(false, None, None, None, [], c.stored)
    ensures Mounted(c, drawn).attemptKey.None? <==>
              c.stored.Some? && c.stored.value.Parsed? && c.stored.value.key.None?
    ensures Mounted(c, drawn).attemptKey.None? ==> Mounted(c, drawn).stored == c.stored
  {
  }

  /** An item that parses but holds neither a key nor a transaction. */
  ghost predicate Stuck(s: System) {
    && s.client.stored == Some(Parsed(None, None)) && s.client.attemptKey.None? && s.client.result.None?
    && s.client.processing.None? && s.client.calls == []
  }

  /** Such an item is not replaced: no run, however often it reloads, ever sends anything again. */
  lemma {:induction false} StuckForever(s: System, events: seq<Event>)
    requires Stuck(s) && AllEnabled(s, events)
    ensures Stuck(Run(s, events)) && Run(s, events).sent == s.sent && Run(s, events).generated == s.generated
    decreases |events|
  {
    if events != [] {
      StuckForever(Step(s, events[0]), events[1..]);
    }
  }
}
