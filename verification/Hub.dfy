/** The websocket hub: registration, broadcast into bounded per-connection channels, and what
    a connection receives. */
module Hub {
  import opened Collections

  type ConnId = int
  type Message = string

  /** The capacity of a connection's send channel. */
  const CAPACITY := 256

  /** A connection's user and send channel, with what its write pump has taken out. */
  datatype Connection = Connection(user: int, buffer: seq<Message>, closed: bool, taken: seq<Message>)

  /** All connections, the registered ones, and whether the hub has panicked. */
  datatype State = State(all: map<ConnId, Connection>, registered: set<ConnId>, panicked: bool)

  datatype Event =
    | Register(c: ConnId, user: int)
    | Unregister(c: ConnId)
    | Broadcast(user: int, msg: Message)
    | Take(c: ConnId)

  /** Messages for user 0 or less are for everyone. */
  predicate AddressedTo(target: int, user: int) {
    target <= 0 || target == user
  }

  predicate Reaches(s: State, c: ConnId, target: int) {
    c in s.registered && c in s.all && AddressedTo(target, s.all[c].user)
  }

  /** A send to a channel, or its closing when it is full. */
  function Offer(c: Connection, msg: Message): Connection {
    if |c.buffer| < CAPACITY then c.(buffer := c.buffer + [msg]) else c.(closed := true)
  }

  function Offered(s: State, target: int, msg: Message): map<ConnId, Connection> {
    map c | c in s.all :: if Reaches(s, c, target) then Offer(s.all[c], msg) else s.all[c]
  }

  function KeptBy(s: State, target: int): set<ConnId> {
    set c | c in s.registered && !(Reaches(s, c, target) && |s.all[c].buffer| >= CAPACITY)
  }

  predicate Enabled(s: State, e: Event) {
    && !s.panicked
    && match e
       case Register(_, _) => true
       case Unregister(c) => c in s.all
       case Broadcast(_, _) => true
       case Take(c) => c in s.all && s.all[c].buffer != []
  }

  /** Sending to a closed channel and closing one again both panic. */
  function Step(s: State, e: Event): State
    requires Enabled(s, e)
  {
    match e
    case Register(c, user) =>
      State(if c in s.all then s.all else s.all[c := Connection(user, [], false, [])], s.registered + {c}, false)
    case Unregister(c) =>
      if c in s.registered then
        State(s.all[c := s.all[c].(closed := true)], s.registered - {c}, s.all[c].closed)
      else s
    case Broadcast(target, msg) =>
      State(Offered(s, target, msg), KeptBy(s, target),
            exists c :: c in s.all && Reaches(s, c, target) && s.all[c].closed)
    case Take(c) =>
      s.(all := s.all[c := s.all[c].(buffer := s.all[c].buffer[1..], taken := s.all[c].taken + [s.all[c].buffer[0]])])
  }

  const EMPTY := State(map[], {}, false)

  predicate IsRun(es: seq<Event>)
    decreases |es|, 0
  {
    es == [] || (IsRun(es[..|es| - 1]) && Enabled(Exec(es[..|es| - 1]), es[|es| - 1]))
  }

  function Exec(es: seq<Event>): State
    requires IsRun(es)
    decreases |es|, 1
  {
    if es == [] then EMPTY else Step(Exec(es[..|es| - 1]), es[|es| - 1])
  }

  // ---------------------------------------------------------------- reading a run

  ghost predicate RegisteredOnce(es: seq<Event>) {
    forall i, j :: 0 <= i < j < |es| && es[i].Register? && es[j].Register? ==> es[i].c != es[j].c
  }

  /** The messages broadcast to a user, in order. */
  function Addressed(es: seq<Event>, user: int): seq<Message> {
    if es == [] then []
    else
      var last := es[|es| - 1];
      Addressed(es[..|es| - 1], user) + (if last.Broadcast? && AddressedTo(last.user, user) then [last.msg] else [])
  }

  /** How often a connection's write pump took a message. */
  function Takes(es: seq<Event>, c: ConnId): nat {
    if es == [] then 0 else Takes(es[..|es| - 1], c) + (if es[|es| - 1] == Take(c) then 1 else 0)
  }

  /** What connection `c`, registered by event `from`, has received: all messages addressed to
      it since then while it is open; otherwise those up to event `to`, which unregistered it
      or was a message addressed to it that found its channel full. */
  ghost predicate Received(es: seq<Event>, c: ConnId, k: Connection, from: nat, to: nat) {
    && from < |es| && from < to <= |es|
    && es[from] == Register(c, k.user)
    && k.taken + k.buffer == Addressed(es[from + 1..to], k.user)
    && |k.taken| == Takes(es, c)
    && |k.buffer| <= CAPACITY
    && (if k.closed then
          && to < |es|
          && (|| es[to] == Unregister(c)
              || (es[to].Broadcast? && AddressedTo(es[to].user, k.user) &&
                  |Addressed(es[from + 1..to], k.user)| - Takes(es[..to], c) == CAPACITY))
        else to == |es|)
  }

  // ---------------------------------------------------------------- invariants

  ghost predicate OpenIsRegistered(s: State) {
    && (forall c :: c in s.registered ==> c in s.all && !s.all[c].closed)
    && (forall c :: c in s.all && !s.all[c].closed ==> c in s.registered)
  }

  ghost predicate WasRegistered(es: seq<Event>, c: ConnId) {
    exists i :: 0 <= i < |es| && es[i].Register? && es[i].c == c
  }

  lemma RegisteredAppend(es: seq<Event>, e: Event, c: ConnId)
    ensures WasRegistered(es + [e], c) <==> WasRegistered(es, c) || (e.Register? && e.c == c)
  {
    if WasRegistered(es, c) {
      var i :| 0 <= i < |es| && es[i].Register? && es[i].c == c;
      assert (es + [e])[i] == es[i];
    }
    assert (es + [e])[|es|] == e;
  }

  lemma RegisteredStep(s: State, e: Event)
    requires Enabled(s, e) && !s.panicked && OpenIsRegistered(s) && (e.Register? ==> e.c !in s.all)
    ensures !Step(s, e).panicked && OpenIsRegistered(Step(s, e))
    ensures forall c :: c in Step(s, e).all <==> c in s.all || (e.Register? && e.c == c)
  {
  }

  lemma {:induction false} Registration(es: seq<Event>)
    requires IsRun(es) && RegisteredOnce(es)
    ensures !Exec(es).panicked && OpenIsRegistered(Exec(es))
    ensures forall c :: c in Exec(es).all <==> WasRegistered(es, c)
  {
    if es != [] {
      var init, e := es[..|es| - 1], es[|es| - 1];
      Registration(init);
      assert es == init + [e];
      forall c ensures WasRegistered(es, c) <==> WasRegistered(init, c) || (e.Register? && e.c == c) {
        RegisteredAppend(init, e, c);
      }
      RegisteredStep(Exec(init), e);
    }
  }

  /** Extending a run by an event that does not concern a closed connection. */
  lemma ReceivedExtends(es: seq<Event>, e: Event, c: ConnId, k: Connection, from: nat, to: nat)
    requires Received(es, c, k, from, to) && k.closed && e != Take(c)
    ensures Received(es + [e], c, k, from, to)
  {
    var es' := es + [e];
    assert es'[..|es|] == es;
    assert es'[from + 1..to] == es[from + 1..to] && es'[..to] == es[..to];
  }

  lemma ReceivedTake(es: seq<Event>, c: ConnId, k: Connection, from: nat, to: nat)
    requires Received(es, c, k, from, to) && k.buffer != []
    ensures Received(es + [Take(c)], c, k.(buffer := k.buffer[1..], taken := k.taken + [k.buffer[0]]), from,
                     if k.closed then to else to + 1)
  {
    var es' := es + [Take(c)];
    assert es'[..|es|] == es;
    assert (k.taken + [k.buffer[0]]) + k.buffer[1..] == k.taken + k.buffer;
    assert es'[from + 1..to] == es[from + 1..to] && es'[..to] == es[..to];
    if !k.closed {
      assert es'[from + 1..to + 1][..to - from - 1] == es[from + 1..to];
    }
  }

  /** Extending a run by an event to an open connection. */
  lemma ReceivedOpen(es: seq<Event>, e: Event, c: ConnId, k: Connection, from: nat, k': Connection)
    requires Received(es, c, k, from, |es|) && !k.closed && e != Take(c)
    requires k' == (if e == Unregister(c) then k.(closed := true)
                    else if e.Broadcast? && AddressedTo(e.user, k.user) then Offer(k, e.msg) else k)
    ensures Received(es + [e], c, k', from, if k'.closed then |es| else |es| + 1)
  {
    var es' := es + [e];
    assert es'[..|es|] == es;
    assert es'[from + 1..|es|] == es[from + 1..|es|];
    assert es'[from + 1..|es| + 1][..|es| - from - 1] == es[from + 1..|es|];
    assert k.taken + (k.buffer + [""]) == (k.taken + k.buffer) + [""];
    if e.Broadcast? {
      assert k.taken + (k.buffer + [e.msg]) == (k.taken + k.buffer) + [e.msg];
    }
  }

  /** What one more event does to a connection that was there before. */
  lemma StepChanges(s: State, e: Event, c: ConnId)
    requires Enabled(s, e) && OpenIsRegistered(s) && c in s.all
    ensures var k := s.all[c];
            c in Step(s, e).all &&
            Step(s, e).all[c] ==
              if e == Take(c) then k.(buffer := k.buffer[1..], taken := k.taken + [k.buffer[0]])
              else if k.closed then k
              else if e == Unregister(c) then k.(closed := true)
              else if e.Broadcast? && AddressedTo(e.user, k.user) then Offer(k, e.msg)
              else k
  {
  }

  lemma ReceivedStep(es: seq<Event>, s: State, e: Event, c: ConnId, from: nat, to: nat) returns (next: nat)
    requires Enabled(s, e) && OpenIsRegistered(s) && c in s.all && Received(es, c, s.all[c], from, to)
    ensures c in Step(s, e).all && Received(es + [e], c, Step(s, e).all[c], from, next)
  {
    var k := s.all[c];
    StepChanges(s, e, c);
    if e == Take(c) {
      ReceivedTake(es, c, k, from, to);
      next := if k.closed then to else to + 1;
    } else if k.closed {
      ReceivedExtends(es, e, c, k, from, to);
      next := to;
    } else {
      ReceivedOpen(es, e, c, k, from, Step(s, e).all[c]);
      next := if Step(s, e).all[c].closed then |es| else |es| + 1;
    }
  }

  /** What each connection has received, at every point of every run in which each connection
      is registered once; in such runs the hub never panics, so no channel is closed twice and
      none is written to after it was closed. */
  lemma {:induction false} Delivery(es: seq<Event>, c: ConnId) returns (from: nat, to: nat)
    requires IsRun(es) && RegisteredOnce(es) && c in Exec(es).all
    ensures !Exec(es).panicked
    ensures Received(es, c, Exec(es).all[c], from, to)
    decreases |es|
  {
    var init, e := es[..|es| - 1], es[|es| - 1];
    assert es == init + [e];
    Registration(init);
    Registration(es);
    if c !in Exec(init).all {
      from, to := |es| - 1, |es|;
      assert es[from + 1..to] == [];
      NeverTaken(init, c);
    } else {
      from, to := Delivery(init, c);
      to := ReceivedStep(init, Exec(init), e, c, from, to);
    }
  }

  lemma {:induction false} NeverTaken(es: seq<Event>, c: ConnId)
    requires IsRun(es) && c !in Exec(es).all
    ensures Takes(es, c) == 0
  {
    if es != [] {
      NeverTaken(es[..|es| - 1], c);
    }
  }

  // ---------------------------------------------------------------- recipients

  /** What a connection has got: what its pump has taken and what waits in its channel. */
  function Got(k: Connection): seq<Message> {
    k.taken + k.buffer
  }

  /** One event: a message for everyone or for its user reaches an open connection with room, and
      closes one without; no other message reaches it, and only the unregistration closes it besides. */
  lemma GetsMore(s: State, e: Event, c: ConnId)
    requires Enabled(s, e) && OpenIsRegistered(s) && c in s.all
    ensures var k := s.all[c];
            var mine, room := e.Broadcast? && (e.user <= 0 || e.user == k.user), |k.buffer| < 256;
            && c in Step(s, e).all && Step(s, e).all[c].user == k.user
            && Got(Step(s, e).all[c]) == Got(k) + (if mine && !k.closed && room then [e.msg] else [])
            && (Step(s, e).all[c].closed <==> k.closed || e == Unregister(c) || (mine && !room))
  {
    var k := s.all[c];
    StepChanges(s, e, c);
    assert Got(k) + [] == Got(k);
    if e == Take(c) {
      assert (k.taken + [k.buffer[0]]) + k.buffer[1..] == k.taken + k.buffer;
    } else if e.Broadcast? {
      assert k.taken + (k.buffer + [e.msg]) == (k.taken + k.buffer) + [e.msg];
    }
  }

  /** Event `i` is a message for the user, or for everyone. */
  predicate IsFor(es: seq<Event>, i: int, user: int, msg: Message) {
    0 <= i < |es| && es[i].Broadcast? && es[i].msg == msg && (es[i].user <= 0 || es[i].user == user)
  }

  lemma IsForLater(es: seq<Event>, e: Event, i: int, user: int, msg: Message)
    requires IsFor(es, i, user, msg)
    ensures IsFor(es + [e], i, user, msg)
  {
  }

  lemma NewConnection(s: State, e: Event, c: ConnId)
    requires Enabled(s, e) && c !in s.all && c in Step(s, e).all
    ensures e.Register? && e.c == c && Step(s, e).all[c] == Connection(e.user, [], false, [])
  {
  }

  /** Everything a connection has got was a message for its user or for everyone. */
  lemma {:induction false} OnlyRecipients(es: seq<Event>, c: ConnId, n: nat)
    requires IsRun(es) && RegisteredOnce(es) && c in Exec(es).all && n < |Got(Exec(es).all[c])|
    ensures exists i :: IsFor(es, i, Exec(es).all[c].user, Got(Exec(es).all[c])[n])
    decreases |es|
  {
    var init, e := es[..|es| - 1], es[|es| - 1];
    assert es == init + [e];
    Registration(init);
    var s := Exec(init);
    if c !in s.all {
      NewConnection(s, e, c);
    } else {
      GetsMore(s, e, c);
      var k, k' := s.all[c], Exec(es).all[c];
      if n < |Got(k)| {
        OnlyRecipients(init, c, n);
        var i :| IsFor(init, i, k.user, Got(k)[n]);
        IsForLater(init, e, i, k.user, Got(k)[n]);
        assert Got(k')[n] == Got(k)[n];
      } else {
        assert IsFor(es, |es| - 1, k'.user, Got(k')[n]);
      }
    }
  }

  lemma {:induction false} RunPrefix(es: seq<Event>, i: nat)
    requires IsRun(es) && i <= |es|
    ensures IsRun(es[..i])
  {
    if i < |es| {
      var init := es[..|es| - 1];
      RunPrefix(init, i);
      assert init[..i] == es[..i];
    } else {
      assert es[..i] == es;
    }
  }

  lemma RegisteredOncePrefix(es: seq<Event>, i: nat)
    requires RegisteredOnce(es) && i <= |es|
    ensures RegisteredOnce(es[..i])
  {
  }

  /** What a connection has got it keeps, in order. */
  lemma {:induction false} GotIsKept(es: seq<Event>, i: nat, c: ConnId)
    requires IsRun(es) && RegisteredOnce(es) && i <= |es| && IsRun(es[..i]) && c in Exec(es[..i]).all
    ensures c in Exec(es).all && Exec(es).all[c].user == Exec(es[..i]).all[c].user
    ensures Got(Exec(es[..i]).all[c]) <= Got(Exec(es).all[c])
    decreases |es|
  {
    if i == |es| {
      assert es[..i] == es;
    } else {
      var init, e := es[..|es| - 1], es[|es| - 1];
      assert es == init + [e] && init[..i] == es[..i];
      Registration(init);
      GotIsKept(init, i, c);
      GetsMore(Exec(init), e, c);
    }
  }

  /** Every message for its user, or for everyone, that comes while a connection is open and has room
      is got there, after all it had got before. */
  lemma NoneIsMissed(es: seq<Event>, i: nat, c: ConnId)
    requires IsRun(es) && RegisteredOnce(es) && i < |es| && IsRun(es[..i]) && c in Exec(es[..i]).all
    requires !Exec(es[..i]).all[c].closed && |Exec(es[..i]).all[c].buffer| < 256
    requires es[i].Broadcast? && (es[i].user <= 0 || es[i].user == Exec(es[..i]).all[c].user)
    ensures c in Exec(es).all && Got(Exec(es[..i]).all[c]) + [es[i].msg] <= Got(Exec(es).all[c])
  {
    RunPrefix(es, i + 1);
    RegisteredOncePrefix(es, i);
    Registration(es[..i]);
    assert es[..i + 1][..i] == es[..i] && es[..i + 1][i] == es[i];
    GetsMore(Exec(es[..i]), es[i], c);
    GotIsKept(es, i + 1, c);
  }

  lemma RunAppend(es: seq<Event>, e: Event)
    requires IsRun(es) && Enabled(Exec(es), e)
    ensures IsRun(es + [e]) && Exec(es + [e]) == Step(Exec(es), e)
  {
    assert (es + [e])[..|es|] == es;
  }

  /** Registering a connection again after it was unregistered makes the next message for it
      panic, so the condition on runs is needed. */
  lemma ReRegistrationPanics()
    ensures var es := [Register(1, 5)] + [Unregister(1)] + [Register(1, 5)] + [Broadcast(0, "m")];
            IsRun(es) && Exec(es).panicked
  {
    RunAppend([], Register(1, 5));
    assert [] + [Register(1, 5)] == [Register(1, 5)];
    RunAppend([Register(1, 5)], Unregister(1));
    RunAppend([Register(1, 5)] + [Unregister(1)], Register(1, 5));
    var s := Exec([Register(1, 5)] + [Unregister(1)] + [Register(1, 5)]);
    assert Reaches(s, 1, 0) && s.all[1].closed;
    RunAppend([Register(1, 5)] + [Unregister(1)] + [Register(1, 5)], Broadcast(0, "m"));
  }

  ghost predicate NoRegistration(es: seq<Event>) {
    forall i :: 0 <= i < |es| ==> !es[i].Register?
  }

  /** Some registered connection has a closed channel. */
  ghost predicate ClosedRegistered(s: State) {
    exists c :: c in s.registered && c in s.all && s.all[c].closed
  }

  lemma StepStaysOpen(s: State, e: Event)
    requires Enabled(s, e) && !ClosedRegistered(s) && !e.Register?
    ensures !Step(s, e).panicked && !ClosedRegistered(Step(s, e))
  {
    var s' := Step(s, e);
    forall c | c in s'.registered && c in s'.all ensures !s'.all[c].closed {
      assert c in s.registered && c in s.all && !s.all[c].closed;
    }
  }

  lemma {:induction false} StaysOpen(es: seq<Event>, later: seq<Event>)
    requires IsRun(es) && !Exec(es).panicked && !ClosedRegistered(Exec(es))
    requires NoRegistration(later) && IsRun(es + later)
    ensures !Exec(es + later).panicked && !ClosedRegistered(Exec(es + later))
    decreases |later|
  {
    if later == [] {
      assert es + later == es;
    } else {
      var init, e := later[..|later| - 1], later[|later| - 1];
      assert (es + later)[..|es + later| - 1] == es + init && (es + later)[|es + later| - 1] == e;
      StaysOpen(es, init);
      StepStaysOpen(Exec(es + init), e);
    }
  }

  /** After any run, the hub can panic without a further registration if and only if the channel of
      some registered connection is closed. */
  lemma CanPanicIff(es: seq<Event>)
    requires IsRun(es) && !Exec(es).panicked
    ensures ClosedRegistered(Exec(es)) <==>
            exists later :: NoRegistration(later) && IsRun(es + later) && Exec(es + later).panicked
  {
    if ClosedRegistered(Exec(es)) {
      var s := Exec(es);
      var c :| c in s.registered && c in s.all && s.all[c].closed;
      assert Reaches(s, c, 0);
      RunAppend(es, Broadcast(0, "m"));
      assert NoRegistration([Broadcast(0, "m")]);
    }
    forall later | NoRegistration(later) && IsRun(es + later) && Exec(es + later).panicked
      ensures ClosedRegistered(Exec(es))
    {
      if !ClosedRegistered(Exec(es)) {
        StaysOpen(es, later);
      }
    }
  }

  // ---------------------------------------------------------------- the hub

  class HubLoop {
    var all: map<ConnId, Connection>
    var registered: set<ConnId>

    ghost function Model(): State
      reads this
    {
      State(all, registered, false)
    }

    method OnRegister(c: ConnId, user: int)
      modifies this
      ensures Model() == Step(old(Model()), Register(c, user))
    {
      if c !in all {
        all := all[c := Connection(user, [], false, [])];
      }
      registered := registered + {c};
    }

    method OnUnregister(c: ConnId) returns (panicked: bool)
      requires c in all
      modifies this
      ensures Model().(panicked := panicked) == Step(old(Model()), Unregister(c))
    {
      panicked := false;
      if c in registered {
        registered := registered - {c};
        panicked := all[c].closed;
        all := all[c := all[c].(closed := true)];
      }
    }

    /** The loop over the registered connections; it ends at the first panic. */
    method OnBroadcast(target: int, msg: Message) returns (panicked: bool)
      requires registered <= all.Keys
      modifies this
      ensures panicked == Step(old(Model()), Broadcast(target, msg)).panicked
      ensures !panicked ==> Model() == Step(old(Model()), Broadcast(target, msg))
    {
      ghost var s := Model();
      var todo := registered;
      while todo != {}
        invariant todo <= s.registered
        invariant all.Keys == s.all.Keys
        invariant forall c :: c in s.all && (c in todo || !Reaches(s, c, target)) ==> all[c] == s.all[c]
        invariant forall c :: c in s.all && c !in todo && Reaches(s, c, target) ==>
            !s.all[c].closed && all[c] == Offer(s.all[c], msg)
        invariant forall c :: c in registered <==>
            c in s.registered && (c in todo || !Reaches(s, c, target) || |s.all[c].buffer| < CAPACITY)
        decreases |todo|
      {
        ghost var member := Member(todo);
        var c :| c in todo;
        assert c in s.registered && c in s.all;
        todo := todo - {c};
        if target > 0 && target != all[c].user {
          continue;
        }
        assert Reaches(s, c, target);
        if all[c].closed {
          return true;
        }
        if |all[c].buffer| < CAPACITY {
          all := all[c := all[c].(buffer := all[c].buffer + [msg])];
        } else {
          all := all[c := all[c].(closed := true)];
          registered := registered - {c};
        }
      }
      SameMap(all, Offered(s, target, msg));
      SubsetByMembers(registered, KeptBy(s, target));
      SubsetByMembers(KeptBy(s, target), registered);
      return false;
    }
  }
}
