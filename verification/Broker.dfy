/** Observers of a directory: handlers subscribe with the broker, get its messages and unsubscribe. */
module Broker {
  import opened Wrappers

  type Id = nat
  type HandlerId = nat
  type Payload = nat

  datatype Message = Subscriber(handler: HandlerId) | Unsubscriber(id: Id) | Broadcast(payload: Payload)

  /** What the broker has done, message by message. */
  datatype Done = Joined(id: Id) | Left(id: Id) | Offered(payload: Payload, to: set<Id>)

  /** A handler waits for its id, then serves its user, then has unsubscribed. */
  datatype Stage = Asking | Active(id: Id) | Gone(id: Id)

  /** The broker, its mailbox and the handlers.  Between the reply to a subscriber and the insertion of
      the observer the handler may already act on its id. */
  datatype System = System(
    mailbox: seq<Message>, inserting: Option<(Id, HandlerId)>, observers: map<Id, HandlerId>, nextId: Id,
    handlers: map<HandlerId, Stage>, done: seq<Done>)

  const START: System := System([], None, map[], 0, map[], [])

  // ---------- the actors ----------

  class WSBroker {
    var observers: map<Id, HandlerId>
    var nextId: Id

    constructor ()
      ensures observers == map[]
    {
      observers, nextId := map[], 0;
    }

    /** Handles one message; the updates go to every observer once, in the order of a hash map. */
    method Handle(message: Message) returns (reply: Option<Id>, updates: seq<(HandlerId, Payload)>)
      requires forall id :: id in observers ==> id < nextId
      modifies this
      ensures forall id :: id in observers ==> id < nextId
      ensures match message
              case Subscriber(h) => reply == Some(old(nextId)) && observers == old(observers)[old(nextId) := h] && updates == []
              case Unsubscriber(id) => reply == None && observers == old(observers) - {id} && updates == []
              case Broadcast(payload) =>
                && reply == None && observers == old(observers)
                && |updates| == |observers|
                && (forall i :: 0 <= i < |updates| ==> updates[i].1 == payload)
                && (forall id :: id in observers ==> (observers[id], payload) in updates)
    {
      reply, updates := None, [];
      match message {
        case Unsubscriber(id) =>
          observers := observers - {id};
        case Subscriber(h) =>
          var id := nextId;
          nextId := nextId + 1;
          reply := Some(id);
          observers := observers[id := h];
        case Broadcast(payload) =>
          var left := observers.Keys;
          while left != {}
            invariant left <= observers.Keys && observers == old(observers) && nextId == old(nextId)
            invariant |updates| + |left| == |observers|
            invariant forall i :: 0 <= i < |updates| ==> updates[i].1 == payload
            invariant forall id :: id in observers && id !in left ==> (observers[id], payload) in updates
          {
            var id :| id in left;
            updates := updates + [(observers[id], payload)];
            left := left - {id};
          }
      }
    }
  }

  /** What a handler's task meets while it serves its user. */
  datatype Input = Receive(payload: Payload, delivered: bool) | Closed | Shutdown

  class WebSocketHandler {
    var sent: seq<Payload>
    var toBroker: seq<Message>

    constructor ()
      ensures sent == [] && toBroker == []
    {
      sent, toBroker := [], [];
    }

    /** Serves the user until the channel closes, a delivery fails or a shutdown is asked for; then,
        and only then, unsubscribes, once.  `n` inputs are served before that. */
    method Serve(id: Id, inputs: seq<Input>) returns (stopped: bool, ghost n: nat)
      modifies this
      ensures n <= |inputs| && (stopped <==> n < |inputs|)
      ensures forall i :: 0 <= i < n ==> inputs[i].Receive? && inputs[i].delivered
      ensures stopped ==> inputs[n].Closed? || inputs[n].Shutdown? || !inputs[n].delivered
      ensures toBroker == old(toBroker) + if stopped then [Unsubscriber(id)] else []
      ensures |sent| == |old(sent)| + n && old(sent) <= sent
      ensures forall i :: 0 <= i < n ==> sent[|old(sent)| + i] == inputs[i].payload
    {
      stopped, n := false, 0;
      for i := 0 to |inputs|
        invariant !stopped && n == i && toBroker == old(toBroker)
        invariant forall j :: 0 <= j < i ==> inputs[j].Receive? && inputs[j].delivered
        invariant |sent| == |old(sent)| + i && old(sent) <= sent
        invariant forall j :: 0 <= j < i ==> sent[|old(sent)| + j] == inputs[j].payload
      {
        match inputs[i] {
          case Receive(payload, delivered) =>
            if delivered {
              sent := sent + [payload];
            } else {
              stopped := true;
              break;
            }
          case _ =>
            stopped := true;
            break;
        }
        n := n + 1;
      }
      if stopped {
        toBroker := toBroker + [Unsubscriber(id)];
      }
    }
  }

  // ---------- the interleavings ----------

  /** The broker takes its next message; a subscriber first gets its reply. */
  function Take(s: System): System
    requires s.mailbox != [] && s.inserting.None?
  {
    var rest := s.(mailbox := s.mailbox[1..]);
    match s.mailbox[0]
    case Subscriber(h) => rest.(inserting := Some((s.nextId, h)), nextId := s.nextId + 1, handlers := s.handlers[h := Active(s.nextId)])
    case Unsubscriber(id) => rest.(observers := s.observers - {id}, done := s.done + [Left(id)])
    case Broadcast(payload) => rest.(done := s.done + [Offered(payload, s.observers.Keys)])
  }

  function Insert(s: System): System
    requires s.inserting.Some?
  {
    var (id, h) := s.inserting.value;
    s.(inserting := None, observers := s.observers[id := h], done := s.done + [Joined(id)])
  }

  ghost predicate Join(s: System, s': System, h: HandlerId) {
    h !in s.handlers && s' == s.(mailbox := s.mailbox + [Subscriber(h)], handlers := s.handlers[h := Asking])
  }

  ghost predicate Leave(s: System, s': System, h: HandlerId) {
    && h in s.handlers && s.handlers[h].Active?
    && s' == s.(mailbox := s.mailbox + [Unsubscriber(s.handlers[h].id)], handlers := s.handlers[h := Gone(s.handlers[h].id)])
  }

  ghost predicate Publish(s: System, s': System) {
    exists payload :: s' == s.(mailbox := s.mailbox + [Broadcast(payload)])
  }

  ghost predicate Next(s: System, s': System) {
    || (s.mailbox != [] && s.inserting.None? && s' == Take(s))
    || (s.inserting.Some? && s' == Insert(s))
    || (exists h :: Join(s, s', h))
    || (exists h :: Leave(s, s', h))
    || Publish(s, s')
  }

  ghost predicate StepAt(states: seq<System>, i: nat)
    requires i < |states| - 1
  {
    Next(states[i], states[i + 1])
  }

  ghost predicate Run(states: seq<System>) {
    states != [] && states[0] == START && forall i: nat :: i < |states| - 1 ==> StepAt(states, i)
  }

  // ---------- the invariant ----------

  /** Ids that have joined and not left. */
  ghost function Members(done: seq<Done>): set<Id> {
    if done == [] then {} else After(Members(done[..|done| - 1]), done[|done| - 1])
  }

  ghost function After(members: set<Id>, d: Done): set<Id> {
    match d
    case Joined(id) => members + {id}
    case Left(id) => members - {id}
    case Offered(_, _) => members
  }

  /** Every broadcast went to the members at its time. */
  ghost predicate OffersExact(done: seq<Done>) {
    forall i :: 0 <= i < |done| && done[i].Offered? ==> done[i].to == Members(done[..i])
  }

  /** The id is the handler's, who still serves or whose unsubscription is under way. */
  ghost predicate Owned(s: System, id: Id, h: HandlerId) {
    h in s.handlers && (s.handlers[h] == Active(id) || (s.handlers[h] == Gone(id) && Unsubscriber(id) in s.mailbox))
  }

  ghost predicate IdsFresh(s: System) {
    && (forall h :: h in s.handlers && !s.handlers[h].Asking? ==> s.handlers[h].id < s.nextId)
    && (forall h, k :: h in s.handlers && k in s.handlers && h != k && !s.handlers[h].Asking? && !s.handlers[k].Asking? ==>
          s.handlers[h].id != s.handlers[k].id)
  }

  ghost predicate MailGenuine(s: System) {
    && (forall h :: Subscriber(h) in s.mailbox ==> h in s.handlers && s.handlers[h].Asking?)
    && (forall id :: Unsubscriber(id) in s.mailbox ==> exists h :: h in s.handlers && s.handlers[h] == Gone(id))
    && (forall i, j :: 0 <= i < j < |s.mailbox| && s.mailbox[i].Subscriber? ==> s.mailbox[i] != s.mailbox[j])
  }

  ghost predicate ObserversOwned(s: System) {
    && (forall id :: id in s.observers ==> Owned(s, id, s.observers[id]))
    && (s.inserting.Some? ==> Owned(s, s.inserting.value.0, s.inserting.value.1) && s.inserting.value.0 !in s.observers)
    && (forall h :: h in s.handlers && s.handlers[h].Active? ==>
          s.handlers[h].id in s.observers || s.inserting == Some((s.handlers[h].id, h)))
  }

  ghost predicate Inv(s: System) {
    && IdsFresh(s) && MailGenuine(s) && ObserversOwned(s)
    && s.observers.Keys == Members(s.done) && OffersExact(s.done)
  }

  lemma DoneAppend(done: seq<Done>, d: Done)
    requires OffersExact(done) && (d.Offered? ==> d.to == Members(done))
    ensures OffersExact(done + [d])
    ensures Members(done + [d]) == After(Members(done), d)
  {
    var longer := done + [d];
    assert longer[..|done|] == done;
    forall i | 0 <= i < |longer| && longer[i].Offered?
      ensures longer[i].to == Members(longer[..i])
    {
      if i < |done| {
        assert longer[..i] == done[..i];
      }
    }
  }

  lemma TakeKeeps(s: System)
    requires Inv(s) && s.mailbox != [] && s.inserting.None?
    ensures Inv(Take(s))
  {
    assert s.mailbox == [s.mailbox[0]] + s.mailbox[1..];
    match s.mailbox[0]
    case Subscriber(h) => SubscriberKeeps(s, h);
    case Unsubscriber(id) => UnsubscriberKeeps(s, id);
    case Broadcast(payload) =>
      DoneAppend(s.done, Offered(payload, s.observers.Keys));
      assert forall m: Message :: !m.Broadcast? ==> (m in s.mailbox <==> m in s.mailbox[1..]);
  }

  lemma SubscriberKeeps(s: System, h: HandlerId)
    requires Inv(s) && s.mailbox != [] && s.inserting.None? && s.mailbox == [Subscriber(h)] + s.mailbox[1..]
    ensures Inv(Take(s))
  {
    var s' := Take(s);
    assert Subscriber(h) in s.mailbox;
    assert Subscriber(h) !in s'.mailbox;
    assert forall m: Message :: m != Subscriber(h) ==> (m in s.mailbox <==> m in s'.mailbox);
    forall id | Unsubscriber(id) in s'.mailbox
      ensures exists k :: k in s'.handlers && s'.handlers[k] == Gone(id)
    {
      var k :| k in s.handlers && s.handlers[k] == Gone(id);
      assert k != h && s'.handlers[k] == Gone(id);
    }
    forall id | id in s'.observers
      ensures Owned(s', id, s'.observers[id])
    {
      assert Owned(s, id, s.observers[id]);
    }
    forall id | id in s.observers
      ensures id != s.nextId
    {
      assert Owned(s, id, s.observers[id]);
    }
  }

  lemma UnsubscriberKeeps(s: System, gone: Id)
    requires Inv(s) && s.mailbox != [] && s.inserting.None? && s.mailbox == [Unsubscriber(gone)] + s.mailbox[1..]
    ensures Inv(Take(s))
  {
    var s' := Take(s);
    DoneAppend(s.done, Left(gone));
    assert Unsubscriber(gone) in s.mailbox;
    var k :| k in s.handlers && s.handlers[k] == Gone(gone);
    assert forall m: Message :: m != Unsubscriber(gone) ==> (m in s.mailbox <==> m in s'.mailbox);
    assert forall m: Message :: m in s'.mailbox ==> m in s.mailbox;
    forall id | id in s'.observers
      ensures Owned(s', id, s'.observers[id])
    {
      assert Owned(s, id, s.observers[id]);
    }
  }

  lemma InsertKeeps(s: System)
    requires Inv(s) && s.inserting.Some?
    ensures Inv(Insert(s))
  {
    var s' := Insert(s);
    DoneAppend(s.done, Joined(s.inserting.value.0));
    forall id | id in s'.observers
      ensures Owned(s', id, s'.observers[id])
    {
      assert id in s.observers ==> Owned(s, id, s.observers[id]);
    }
  }

  lemma JoinKeeps(s: System, s': System, h: HandlerId)
    requires Inv(s) && Join(s, s', h)
    ensures Inv(s')
  {
    forall id, k | Owned(s, id, k)
      ensures Owned(s', id, k)
    {
    }
    forall id | Unsubscriber(id) in s'.mailbox
      ensures exists k :: k in s'.handlers && s'.handlers[k] == Gone(id)
    {
      var k :| k in s.handlers && s.handlers[k] == Gone(id);
      assert s'.handlers[k] == Gone(id);
    }
  }

  lemma LeaveKeeps(s: System, s': System, h: HandlerId)
    requires Inv(s) && Leave(s, s', h)
    ensures Inv(s')
  {
    forall id, k | Owned(s, id, k)
      ensures Owned(s', id, k)
    {
    }
    forall id | Unsubscriber(id) in s'.mailbox
      ensures exists k :: k in s'.handlers && s'.handlers[k] == Gone(id)
    {
      if Unsubscriber(id) in s.mailbox {
        var k :| k in s.handlers && s.handlers[k] == Gone(id);
        assert s'.handlers[k] == Gone(id);
      } else {
        assert s'.handlers[h] == Gone(id);
      }
    }
  }

  lemma NextKeeps(s: System, s': System)
    requires Inv(s) && Next(s, s')
    ensures Inv(s')
  {
    if s.mailbox != [] && s.inserting.None? && s' == Take(s) {
      TakeKeeps(s);
    } else if s.inserting.Some? && s' == Insert(s) {
      InsertKeeps(s);
    } else if h :| Join(s, s', h) {
      JoinKeeps(s, s', h);
    } else if h :| Leave(s, s', h) {
      LeaveKeeps(s, s', h);
    } else {
      assert forall id, k :: Owned(s, id, k) ==> Owned(s', id, k);
    }
  }

  lemma {:induction false} RunKeeps(states: seq<System>, n: nat)
    requires Run(states) && n < |states|
    ensures Inv(states[n])
  {
    if n > 0 {
      RunKeeps(states, n - 1);
      assert StepAt(states, n - 1);
      NextKeeps(states[n - 1], states[n]);
    }
  }

  // ---------- the main results ----------

  /** Membership read off the log: joined, and not left since. */
  lemma {:induction false} MembersAre(done: seq<Done>, id: Id)
    ensures id in Members(done) <==>
            exists i :: 0 <= i < |done| && done[i] == Joined(id) && forall j :: i < j < |done| ==> done[j] != Left(id)
  {
    if done != [] {
      var front, last := done[..|done| - 1], done[|done| - 1];
      MembersAre(front, id);
      if id in Members(done) {
        if last == Joined(id) {
          assert done[|done| - 1] == Joined(id);
        } else {
          var i :| 0 <= i < |front| && front[i] == Joined(id) && forall j :: i < j < |front| ==> front[j] != Left(id);
          assert done[i] == Joined(id);
        }
      }
      if i :| 0 <= i < |done| && done[i] == Joined(id) && forall j :: i < j < |done| ==> done[j] != Left(id) {
        if i < |front| {
          assert front[i] == Joined(id);
          assert forall j :: i < j < |front| ==> front[j] == done[j];
        }
      }
    }
  }

  /** In every interleaving a broadcast is offered to exactly the ids that had joined and not left when
      it was handled. */
  lemma BroadcastReaches(states: seq<System>, n: nat, i: nat, id: Id)
    requires Run(states) && n < |states|
    requires i < |states[n].done| && states[n].done[i].Offered?
    ensures var done := states[n].done;
            id in done[i].to <==>
            exists j :: 0 <= j < i && done[j] == Joined(id) && forall k :: j < k < i ==> done[k] != Left(id)
  {
    RunKeeps(states, n);
    var done := states[n].done;
    MembersAre(done[..i], id);
    assert forall j :: 0 <= j < i ==> done[..i][j] == done[j];
  }

  /** Once the broker has handled everything, its observers are exactly the handlers that still serve:
      whoever has exited is gone. */
  lemma ExitedAreGone(states: seq<System>, n: nat, id: Id)
    requires Run(states) && n < |states| && states[n].mailbox == [] && states[n].inserting.None?
    ensures id in states[n].observers <==> exists h :: h in states[n].handlers && states[n].handlers[h] == Active(id)
    ensures forall h :: h in states[n].handlers && states[n].handlers[h] == Gone(id) ==> id !in states[n].observers
  {
    RunKeeps(states, n);
    if id in states[n].observers {
      assert Owned(states[n], id, states[n].observers[id]);
    }
  }
}
