/**
 * The WebSocket hub: registration, removal, broadcasts and the write pumps interleave. The client map is
 * guarded by a read-write lock; a broadcast sends under the read lock and drops slow clients under the
 * write lock. A Move is one atomic step; steps that need the write lock wait for all readers.
 */
module Hubs {
  const QUEUE_SLOTS := 64

  type Message = int

  /**
   * since is the number of broadcasts begun before registration; sent is everything ever queued, and
   * from says of which broadcast, counted from the first, each of these messages is.
   */
  datatype Client = Client(
    open: bool, queue: seq<Message>, pumping: bool, since: nat, sent: seq<Message>, from: seq<nat>, delivered: seq<Message>)

  /** A broadcast in progress, the at-th: clients still to be served under the read lock, and those found slow. */
  datatype Broadcast =
    | Sending(at: nat, msg: Message, todo: set<nat>, slow: set<nat>)
    | Dropping(at: nat, slow: set<nat>)

  /** misused records a send on a closed channel or a second close, which would crash the program. */
  datatype Hub = Hub(clients: seq<Client>, listed: set<nat>, active: map<nat, Broadcast>, log: seq<Message>, misused: bool)

  datatype Move =
    | Register
    | Unregister(client: nat)
    | Begin(caller: nat, msg: Message)
    | Send(caller: nat, client: nat)
    | EndSending(caller: nat)
    | DropSlow(caller: nat)
    | Deliver(client: nat)    // the pump writes the next message
    | PumpFails(client: nat)  // a write fails, or the closed channel is drained
    | Delist(client: nat)     // the pump's last act

  function Init(): Hub {
    Hub([], {}, map[], [], false)
  }

  predicate Reading(h: Hub) {
    exists b | b in h.active :: h.active[b].Sending?
  }

  predicate Enabled(h: Hub, m: Move) {
    match m
    case Register => !Reading(h)
    case Unregister(c) => c < |h.clients| && !Reading(h)
    case Begin(b, _) => b !in h.active
    case Send(b, c) => b in h.active && h.active[b].Sending? && c in h.active[b].todo && c < |h.clients|
    case EndSending(b) => b in h.active && h.active[b].Sending? && h.active[b].todo == {}
    case DropSlow(b) => b in h.active && h.active[b].Dropping? && !Reading(h)
    case Deliver(c) => c < |h.clients| && h.clients[c].pumping && h.clients[c].queue != []
    case PumpFails(c) => c < |h.clients| && h.clients[c].pumping && (h.clients[c].queue != [] || !h.clients[c].open)
    case Delist(c) => c < |h.clients| && !h.clients[c].pumping && !Reading(h)
  }

  /** Closes the channels of those of cs that are listed, and takes them off the list. */
  function Close(h: Hub, cs: set<nat>): Hub {
    h.(clients := seq(|h.clients|, c requires 0 <= c < |h.clients| =>
                        if c in cs && c in h.listed then h.clients[c].(open := false) else h.clients[c]),
       listed := h.listed - cs,
       misused := h.misused || exists c | c in cs && c in h.listed :: !(c < |h.clients|) || !h.clients[c].open)
  }

  /** A send that does not wait: it succeeds if the queue has room, and crashes on a closed channel. */
  function Offer(h: Hub, b: nat, c: nat): Hub
    requires Enabled(h, Send(b, c))
  {
    var x, s := h.clients[c], h.active[b];
    if !x.open then h.(misused := true)
    else if |x.queue| < QUEUE_SLOTS then
      h.(clients := h.clients[c := x.(queue := x.queue + [s.msg], sent := x.sent + [s.msg], from := x.from + [s.at])],
         active := h.active[b := s.(todo := s.todo - {c})])
    else h.(active := h.active[b := s.(todo := s.todo - {c}, slow := s.slow + {c})])
  }

  function Next(h: Hub, m: Move): Hub
    requires Enabled(h, m)
  {
    match m
    case Register =>
      h.(clients := h.clients + [Client(true, [], true, |h.log|, [], [], [])], listed := h.listed + {|h.clients|})
    case Unregister(c) => Close(h, {c})
    case Begin(b, msg) => h.(active := h.active[b := Sending(|h.log|, msg, h.listed, {})], log := h.log + [msg])
    case Send(b, c) => Offer(h, b, c)
    case EndSending(b) =>
      if h.active[b].slow == {} then h.(active := h.active - {b})
      else h.(active := h.active[b := Dropping(h.active[b].at, h.active[b].slow)])
    case DropSlow(b) => Close(h, h.active[b].slow).(active := h.active - {b})
    case Deliver(c) =>
      var x := h.clients[c];
      h.(clients := h.clients[c := x.(queue := x.queue[1..], delivered := x.delivered + [x.queue[0]])])
    case PumpFails(c) =>
      var x := h.clients[c];
      h.(clients := h.clients[c := x.(pumping := false, queue := if x.queue == [] then [] else x.queue[1..])])
    case Delist(c) => h.(listed := h.listed - {c})
  }

  ghost predicate Possible(h: Hub, moves: seq<Move>)
    decreases |moves|
  {
    moves == [] || (Enabled(h, moves[0]) && Possible(Next(h, moves[0]), moves[1..]))
  }

  ghost function Play(h: Hub, moves: seq<Move>): Hub
    requires Possible(h, moves)
    decreases |moves|
  {
    if moves == [] then h else Play(Next(h, moves[0]), moves[1..])
  }

  // --- Safety, for any number of broadcasts at once ---

  predicate ClientOk(x: Client) {
    && |x.queue| <= QUEUE_SLOTS
    && (x.pumping ==> x.delivered + x.queue == x.sent)
    && x.delivered <= x.sent
  }

  ghost predicate Safe(h: Hub) {
    && !h.misused
    && (forall c :: c in h.listed ==> c < |h.clients| && h.clients[c].open)
    && (forall c :: 0 <= c < |h.clients| && c !in h.listed && h.clients[c].pumping ==> !h.clients[c].open)
    && (forall c :: 0 <= c < |h.clients| ==> ClientOk(h.clients[c]))
    && (forall b :: b in h.active && h.active[b].Sending? ==> h.active[b].todo <= h.listed)
  }

  lemma ClosingIsSafe(h: Hub, cs: set<nat>)
    requires Safe(h) && !Reading(h)
    ensures Safe(Close(h, cs))
  {
  }

  lemma RegisterIsSafe(h: Hub)
    requires Safe(h) && Enabled(h, Register)
    ensures Safe(Next(h, Register))
  {
  }

  lemma BroadcastStepIsSafe(h: Hub, m: Move)
    requires Safe(h) && Enabled(h, m) && (m.Begin? || m.EndSending? || m.Delist?)
    ensures Safe(Next(h, m))
  {
    hide ClientOk;
  }

  /** A send never meets a closed channel: those it has still to serve are listed. */
  lemma SendIsSafe(h: Hub, b: nat, c: nat)
    requires Safe(h) && Enabled(h, Send(b, c))
    ensures Safe(Next(h, Send(b, c)))
  {
    assert c in h.listed && h.clients[c].open;
  }

  lemma PumpIsSafe(h: Hub, m: Move)
    requires Safe(h) && Enabled(h, m) && (m.Deliver? || m.PumpFails?)
    ensures Safe(Next(h, m))
  {
  }

  /** Every step keeps the discipline of channels and queues. */
  lemma MoveIsSafe(h: Hub, m: Move)
    requires Safe(h) && Enabled(h, m)
    ensures Safe(Next(h, m))
  {
    hide Safe;
    match m
    case Register => RegisterIsSafe(h);
    case Unregister(c) => ClosingIsSafe(h, {c});
    case DropSlow(b) => DropIsSafe(h, b);
    case Send(b, c) => SendIsSafe(h, b, c);
    case Deliver(_) => PumpIsSafe(h, m);
    case PumpFails(_) => PumpIsSafe(h, m);
    case _ => BroadcastStepIsSafe(h, m);
  }

  lemma DropIsSafe(h: Hub, b: nat)
    requires Safe(h) && Enabled(h, DropSlow(b))
    ensures Safe(Next(h, DropSlow(b)))
  {
    ClosingIsSafe(h, h.active[b].slow);
  }

  lemma {:induction false} AlwaysSafe(h: Hub, moves: seq<Move>)
    requires Safe(h) && Possible(h, moves)
    ensures Safe(Play(h, moves))
    decreases |moves|
  {
    hide Safe, Enabled, Next;
    if moves != [] {
      MoveIsSafe(h, moves[0]);
      AlwaysSafe(Next(h, moves[0]), moves[1..]);
    }
  }

  /**
   * Over every interleaving: a listed client's channel is open, one taken off the list while its pump runs
   * is closed, so that the pump can end, no channel is closed twice or sent on after its close, and no queue
   * exceeds its slots.
   */
  lemma HubIsSafe(moves: seq<Move>)
    requires Possible(Init(), moves)
    ensures var h := Play(Init(), moves);
            && !h.misused
            && (forall c :: c in h.listed ==> c < |h.clients| && h.clients[c].open)
            && (forall c :: 0 <= c < |h.clients| && c !in h.listed && h.clients[c].pumping ==> !h.clients[c].open)
            && (forall c :: 0 <= c < |h.clients| ==> |h.clients[c].queue| <= 64)
  {
    AlwaysSafe(Init(), moves);
    var h := Play(Init(), moves);
    forall c | 0 <= c < |h.clients|
      ensures |h.clients[c].queue| <= 64
    {
      assert ClientOk(h.clients[c]);
    }
  }

  /** So the pump of a client that was unregistered or dropped can always end, whatever else the hub is doing. */
  lemma DroppedPumpCanEnd(moves: seq<Move>, c: nat)
    requires Possible(Init(), moves)
    requires var h := Play(Init(), moves); c < |h.clients| && c !in h.listed && h.clients[c].pumping
    ensures var h := Play(Init(), moves);
            Enabled(h, PumpFails(c)) && !Next(h, PumpFails(c)).clients[c].pumping
  {
    hide Play, Possible, Safe;
    HubIsSafe(moves);
  }

  // --- Order of messages ---

  /** The clients the broadcast has not served. */
  function Unserved(b: Broadcast): set<nat> {
    match b
    case Sending(_, _, todo, slow) => todo + slow
    case Dropping(_, slow) => slow
  }

  /** Some broadcast in progress, the u-th, has not served the client. */
  predicate WaitsFor(h: Hub, c: nat, u: nat) {
    exists b | b in h.active :: h.active[b].at == u && c in Unserved(h.active[b])
  }

  /** What was sent to a client are messages of broadcasts begun since it registered. */
  predicate Sourced(h: Hub, x: Client) {
    && x.since <= |h.log| && |x.from| == |x.sent|
    && forall i :: 0 <= i < |x.from| ==> x.since <= x.from[i] < |h.log| && x.sent[i] == h.log[x.from[i]]
  }

  /** A broadcast in progress has its message in the log, and has sent nothing yet to those it has not served. */
  predicate Pending(h: Hub, b: Broadcast) {
    && b.at < |h.log| && (b.Sending? ==> b.msg == h.log[b.at] && b.todo !! b.slow)
    && forall c :: c in Unserved(b) ==> c < |h.clients| && h.clients[c].since <= b.at && b.at !in h.clients[c].from
  }

  /** Every broadcast since its registration has been sent to a listed client, or has yet to serve it. */
  predicate Owed(h: Hub, c: nat)
    requires c < |h.clients|
  {
    forall u :: h.clients[c].since <= u < |h.log| ==> u in h.clients[c].from || WaitsFor(h, c, u)
  }

  /** The books of the hub, with any number of broadcasts in progress. */
  ghost predicate Account(h: Hub) {
    && (forall b :: b in h.active ==> Pending(h, h.active[b]))
    && (forall b, b' :: b in h.active && b' in h.active && h.active[b].at == h.active[b'].at ==> b == b')
    && (forall c :: 0 <= c < |h.clients| ==> Sourced(h, h.clients[c]))
    && (forall c :: c in h.listed && c < |h.clients| ==> Owed(h, c))
  }

  /** A client's messages are those of consecutive broadcasts, beginning with the first since it registered. */
  predicate InRun(x: Client) {
    forall i :: 0 <= i < |x.from| ==> x.from[i] == x.since + i
  }

  lemma BeginKeepsAccount(h: Hub, b: nat, msg: Message)
    requires Safe(h) && Account(h) && Enabled(h, Begin(b, msg))
    ensures Account(Next(h, Begin(b, msg)))
  {
    var h' := Next(h, Begin(b, msg));
    forall k | k in h'.active
      ensures Pending(h', h'.active[k])
    {
      if k == b { BegunIsPending(h, b, msg); } else { assert Pending(h, h.active[k]); }
    }
    forall k, k' | k in h'.active && k' in h'.active && h'.active[k].at == h'.active[k'].at
      ensures k == k'
    {
      if k != b { assert Pending(h, h.active[k]); }
      if k' != b { assert Pending(h, h.active[k']); }
    }
    forall c | 0 <= c < |h.clients|
      ensures Sourced(h', h'.clients[c])
      ensures c in h'.listed ==> Owed(h', c)
    {
      assert Sourced(h, h.clients[c]);
      if c in h.listed { BeginKeepsOwed(h, b, msg, c); }
    }
  }

  lemma BegunIsPending(h: Hub, b: nat, msg: Message)
    requires Safe(h) && (forall c :: 0 <= c < |h.clients| ==> Sourced(h, h.clients[c])) && Enabled(h, Begin(b, msg))
    ensures var h' := Next(h, Begin(b, msg)); Pending(h', h'.active[b])
  {
    forall c | c in h.listed
      ensures c < |h.clients| && h.clients[c].since <= |h.log| && |h.log| !in h.clients[c].from
    {
      assert Sourced(h, h.clients[c]);
    }
  }

  lemma BeginKeepsOwed(h: Hub, b: nat, msg: Message, c: nat)
    requires Enabled(h, Begin(b, msg)) && c in h.listed && c < |h.clients| && Owed(h, c)
    ensures Owed(Next(h, Begin(b, msg)), c)
  {
    var h' := Next(h, Begin(b, msg));
    forall u | h.clients[c].since <= u < |h'.log| && u !in h.clients[c].from
      ensures WaitsFor(h', c, u)
    {
      if u < |h.log| {
        assert WaitsFor(h, c, u);
        var k :| k in h.active && h.active[k].at == u && c in Unserved(h.active[k]);
        assert k in h'.active && h'.active[k] == h.active[k];
      } else {
        assert b in h'.active && h'.active[b].at == u && c in Unserved(h'.active[b]);
      }
    }
  }

  lemma SendTargetIsListed(h: Hub, b: nat, c: nat)
    requires Safe(h) && Enabled(h, Send(b, c))
    ensures c in h.listed && h.clients[c].open
  {
  }

  lemma SendKeepsAccount(h: Hub, b: nat, c: nat)
    requires Safe(h) && Account(h) && Enabled(h, Send(b, c))
    ensures Account(Next(h, Send(b, c)))
  {
    hide Safe, Pending, Sourced, Owed;
    var h' := Next(h, Send(b, c));
    SendTargetIsListed(h, b, c);
    forall k | k in h'.active
      ensures Pending(h', h'.active[k]) && h'.active[k].at == h.active[k].at
    {
      SendKeepsPending(h, b, c, k);
    }
    forall d | 0 <= d < |h'.clients|
      ensures Sourced(h', h'.clients[d])
      ensures d in h'.listed ==> Owed(h', d)
    {
      SendKeepsSourced(h, b, c, d);
      if d in h.listed { SendKeepsOwed(h, b, c, d); }
    }
  }

  lemma SendKeepsPending(h: Hub, b: nat, c: nat, k: nat)
    requires Enabled(h, Send(b, c)) && h.clients[c].open && k in h.active
    requires Pending(h, h.active[b]) && Pending(h, h.active[k]) && (k != b ==> h.active[k].at != h.active[b].at)
    ensures var h' := Next(h, Send(b, c));
            k in h'.active && Pending(h', h'.active[k]) && h'.active[k].at == h.active[k].at
  {
  }

  lemma SendKeepsSourced(h: Hub, b: nat, c: nat, d: nat)
    requires Enabled(h, Send(b, c)) && h.clients[c].open && d < |h.clients|
    requires Pending(h, h.active[b]) && Sourced(h, h.clients[d])
    ensures Sourced(Next(h, Send(b, c)), Next(h, Send(b, c)).clients[d])
  {
  }

  lemma SendKeepsOwed(h: Hub, b: nat, c: nat, d: nat)
    requires Enabled(h, Send(b, c)) && h.clients[c].open && d < |h.clients| && Owed(h, d)
    ensures Owed(Next(h, Send(b, c)), d)
  {
    var h' := Next(h, Send(b, c));
    var served := d == c && |h.clients[c].queue| < QUEUE_SLOTS;
    if served { assert h'.clients[c].from[|h.clients[c].from|] == h.active[b].at; }
    forall u | h.clients[d].since <= u < |h.log| && u !in h'.clients[d].from
      ensures WaitsFor(h', d, u)
    {
      assert u !in h.clients[d].from;
      assert WaitsFor(h, d, u);
      var k :| k in h.active && h.active[k].at == u && d in Unserved(h.active[k]);
      assert k in h'.active && h'.active[k].at == u && d in Unserved(h'.active[k]);
    }
  }

  /** Ending, dropping and delisting forget a broadcast only once it has served all that stay listed. */
  lemma FinishKeepsAccount(h: Hub, m: Move)
    requires Safe(h) && Account(h) && Enabled(h, m) && (m.EndSending? || m.DropSlow? || m.Unregister? || m.Delist?)
    ensures Account(Next(h, m))
  {
    hide Safe, Pending, Sourced, Owed;
    var h' := Next(h, m);
    forall k | k in h'.active
      ensures k in h.active && Pending(h', h'.active[k]) && h'.active[k].at == h.active[k].at
    {
      FinishKeepsPending(h, m, k);
    }
    forall c | 0 <= c < |h'.clients|
      ensures Sourced(h', h'.clients[c])
      ensures c in h'.listed ==> Owed(h', c)
    {
      FinishKeepsSourced(h, m, c);
      if c in h'.listed { FinishKeepsOwed(h, m, c); }
    }
  }

  lemma FinishKeepsPending(h: Hub, m: Move, k: nat)
    requires Enabled(h, m) && (m.EndSending? || m.DropSlow? || m.Unregister? || m.Delist?)
    requires k in Next(h, m).active && (k in h.active ==> Pending(h, h.active[k]))
    ensures var h' := Next(h, m);
            k in h.active && Pending(h', h'.active[k]) && h'.active[k].at == h.active[k].at
  {
  }

  lemma FinishKeepsSourced(h: Hub, m: Move, c: nat)
    requires Enabled(h, m) && (m.EndSending? || m.DropSlow? || m.Unregister? || m.Delist?)
    requires c < |Next(h, m).clients| && (c < |h.clients| ==> Sourced(h, h.clients[c]))
    ensures c < |h.clients| && Sourced(Next(h, m), Next(h, m).clients[c]) && (c in Next(h, m).listed ==> c in h.listed)
  {
  }

  lemma FinishKeepsOwed(h: Hub, m: Move, c: nat)
    requires Enabled(h, m) && (m.EndSending? || m.DropSlow? || m.Unregister? || m.Delist?)
    requires c in Next(h, m).listed && c in h.listed && c < |h.clients| && Owed(h, c)
    ensures Owed(Next(h, m), c)
  {
    var h' := Next(h, m);
    forall u | h.clients[c].since <= u < |h.log| && u !in h.clients[c].from
      ensures WaitsFor(h', c, u)
    {
      assert WaitsFor(h, c, u);
      var k :| k in h.active && h.active[k].at == u && c in Unserved(h.active[k]);
      assert k in h'.active && h'.active[k].at == u && c in Unserved(h'.active[k]);
    }
  }

  lemma OtherKeepsAccount(h: Hub, m: Move)
    requires Safe(h) && Account(h) && Enabled(h, m) && (m.Register? || m.Deliver? || m.PumpFails?)
    ensures Account(Next(h, m))
  {
    var h' := Next(h, m);
    forall k | k in h'.active
      ensures Pending(h', h'.active[k])
    {
      assert Pending(h, h.active[k]);
    }
    forall c | 0 <= c < |h'.clients|
      ensures Sourced(h', h'.clients[c])
      ensures c in h'.listed ==> Owed(h', c)
    {
      if c < |h.clients| {
        assert Sourced(h, h.clients[c]);
        if c in h.listed { OtherKeepsOwed(h, m, c); }
      }
    }
  }

  lemma OtherKeepsOwed(h: Hub, m: Move, c: nat)
    requires Enabled(h, m) && (m.Register? || m.Deliver? || m.PumpFails?) && c < |h.clients| && Owed(h, c)
    ensures Owed(Next(h, m), c)
  {
    var h' := Next(h, m);
    forall u | h.clients[c].since <= u < |h.log| && u !in h.clients[c].from
      ensures WaitsFor(h', c, u)
    {
      assert WaitsFor(h, c, u);
      var k :| k in h.active && h.active[k].at == u && c in Unserved(h.active[k]);
      assert k in h'.active && h'.active[k] == h.active[k];
    }
  }

  /** Every step keeps the books, whatever broadcasts are in progress. */
  lemma MoveKeepsAccount(h: Hub, m: Move)
    requires Safe(h) && Account(h) && Enabled(h, m)
    ensures Account(Next(h, m))
  {
    hide Safe, Account;
    match m
    case Begin(b, msg) => BeginKeepsAccount(h, b, msg);
    case Send(b, c) => SendKeepsAccount(h, b, c);
    case EndSending(_) => FinishKeepsAccount(h, m);
    case DropSlow(_) => FinishKeepsAccount(h, m);
    case Unregister(_) => FinishKeepsAccount(h, m);
    case Delist(_) => FinishKeepsAccount(h, m);
    case _ => OtherKeepsAccount(h, m);
  }

  /** The move queues a message to the client while a broadcast begun earlier has not served it. */
  predicate Overtakes(h: Hub, m: Move, c: nat) {
    && m.Send? && m.client == c && Enabled(h, m) && h.clients[c].open && |h.clients[c].queue| < QUEUE_SLOTS
    && exists b | b in h.active :: h.active[b].at < h.active[m.caller].at && c in Unserved(h.active[b])
  }

  /** A send leaves a client in run if and only if it was in run and the send did not overtake. */
  lemma SendInRunIff(h: Hub, b: nat, c: nat)
    requires Safe(h) && Account(h) && Enabled(h, Send(b, c))
    ensures InRun(Next(h, Send(b, c)).clients[c]) <==> InRun(h.clients[c]) && !Overtakes(h, Send(b, c), c)
  {
    hide Safe;
    SendTargetIsListed(h, b, c);
    var x, t := h.clients[c], h.active[b].at;
    assert Pending(h, h.active[b]) && Sourced(h, x) && Owed(h, c);
    if |x.queue| < QUEUE_SLOTS {
      var y := Next(h, Send(b, c)).clients[c];
      assert y.from == x.from + [t];
      if InRun(x) {
        if Overtakes(h, Send(b, c), c) {
          var k :| k in h.active && h.active[k].at < t && c in Unserved(h.active[k]);
          assert Pending(h, h.active[k]);
          OvertakenIsMissing(x, y, t, h.active[k].at);
        } else {
          NothingMissingBefore(h, b, c);
        }
      } else {
        PrefixOutOfRun(x, y);
      }
    }
  }

  /** A client in run has been sent exactly the first so many broadcasts since it registered. */
  lemma InRunHolds(x: Client, u: nat)
    requires InRun(x) && x.since <= u
    ensures u in x.from <==> u < x.since + |x.from|
  {
    if u < x.since + |x.from| { assert x.from[u - x.since] == u; }
  }

  lemma OvertakenIsMissing(x: Client, y: Client, t: nat, u: nat)
    requires InRun(x) && y.since == x.since && y.from == x.from + [t] && x.since <= u < t && u !in x.from
    ensures !InRun(y)
  {
    InRunHolds(x, u);
    assert y.from[|x.from|] == t;
  }

  lemma PrefixOutOfRun(x: Client, y: Client)
    requires !InRun(x) && y.since == x.since && x.from <= y.from
    ensures !InRun(y)
  {
    var i :| 0 <= i < |x.from| && x.from[i] != x.since + i;
    assert y.from[i] == x.from[i];
  }

  lemma NothingMissingBefore(h: Hub, b: nat, c: nat)
    requires Enabled(h, Send(b, c)) && InRun(h.clients[c]) && Pending(h, h.active[b]) && Owed(h, c)
    requires h.clients[c].open && |h.clients[c].queue| < QUEUE_SLOTS && !Overtakes(h, Send(b, c), c)
    ensures h.active[b].at == h.clients[c].since + |h.clients[c].from|
  {
    var x, t := h.clients[c], h.active[b].at;
    InRunHolds(x, t);
    if t > x.since {
      InRunHolds(x, t - 1);
      assert t - 1 !in x.from ==> WaitsFor(h, c, t - 1);
    }
  }

  /** Moves other than a send to a client do not change what was sent to it. */
  lemma SentOnlyBySend(h: Hub, m: Move, c: nat)
    requires Enabled(h, m) && c < |h.clients| && !(m.Send? && m.client == c)
    ensures c < |Next(h, m).clients| && Next(h, m).clients[c].from == h.clients[c].from
    ensures Next(h, m).clients[c].since == h.clients[c].since
  {
  }

  /** A client that has registered is in run. */
  predicate Ordered(h: Hub, c: nat) {
    c < |h.clients| ==> InRun(h.clients[c])
  }

  lemma MoveOrderedIff(h: Hub, m: Move, c: nat)
    requires Safe(h) && Account(h) && Enabled(h, m)
    ensures Ordered(Next(h, m), c) <==> Ordered(h, c) && !Overtakes(h, m, c)
  {
    hide Safe, Account, Overtakes;
    if m.Send? && m.client == c {
      SendInRunIff(h, m.caller, c);
    } else {
      OvertakesBySend(h, m, c);
      if c < |h.clients| { SentOnlyBySend(h, m, c); }
    }
  }

  lemma OvertakesBySend(h: Hub, m: Move, c: nat)
    ensures Overtakes(h, m, c) ==> m.Send? && m.client == c
  {
  }

  /** Some move of the run overtakes at the client. */
  ghost predicate SomeOvertakes(h: Hub, moves: seq<Move>, c: nat)
    requires Possible(h, moves)
    decreases |moves|
  {
    moves != [] && (Overtakes(h, moves[0], c) || SomeOvertakes(Next(h, moves[0]), moves[1..], c))
  }

  lemma {:induction false} OrderedIff(h: Hub, moves: seq<Move>, c: nat)
    requires Safe(h) && Account(h) && Possible(h, moves)
    ensures Safe(Play(h, moves)) && Account(Play(h, moves))
    ensures Ordered(Play(h, moves), c) <==> Ordered(h, c) && !SomeOvertakes(h, moves, c)
    decreases |moves|
  {
    hide Safe, Account, Enabled, Next, Ordered, Overtakes;
    if moves != [] {
      MoveIsSafe(h, moves[0]);
      MoveKeepsAccount(h, moves[0]);
      MoveOrderedIff(h, moves[0], c);
      OrderedIff(Next(h, moves[0]), moves[1..], c);
    }
  }

  /**
   * Over every interleaving, with any number of broadcasts at once: a client is queued the messages of
   * consecutive broadcasts from its registration on, without gap or change of order, if and only if never
   * a message was queued to it while a broadcast begun earlier had not served it yet.
   */
  lemma GapFreeIff(moves: seq<Move>, c: nat)
    requires Possible(Init(), moves) && c < |Play(Init(), moves).clients|
    ensures InRun(Play(Init(), moves).clients[c]) <==> !SomeOvertakes(Init(), moves, c)
  {
    OrderedIff(Init(), moves, c);
  }

  /** Being in run means having been sent a stretch of the log. */
  lemma RunIsStretch(h: Hub, x: Client)
    requires Sourced(h, x) && InRun(x)
    ensures x.sent <= h.log[x.since..]
  {
    if |x.from| > 0 { assert x.from[|x.from| - 1] == x.since + |x.from| - 1; }
    assert forall i :: 0 <= i < |x.sent| ==> x.sent[i] == h.log[x.since..][i];
  }

  /** No broadcast begins while another is in progress. */
  ghost predicate OneAtATime(h: Hub, moves: seq<Move>)
    requires Possible(h, moves)
    decreases |moves|
  {
    moves == [] || ((moves[0].Begin? ==> h.active == map[]) && OneAtATime(Next(h, moves[0]), moves[1..]))
  }

  ghost predicate OneActive(h: Hub) {
    forall b, b' :: b in h.active && b' in h.active ==> b == b'
  }

  lemma MoveKeepsOneActive(h: Hub, m: Move)
    requires OneActive(h) && Enabled(h, m) && (m.Begin? ==> h.active == map[])
    ensures OneActive(Next(h, m)) && forall c :: !Overtakes(h, m, c)
  {
  }

  lemma {:induction false} OneAtATimeNeverOvertakes(h: Hub, moves: seq<Move>, c: nat)
    requires OneActive(h) && Possible(h, moves) && OneAtATime(h, moves)
    ensures !SomeOvertakes(h, moves, c)
    decreases |moves|
  {
    hide OneActive, Enabled, Next, Overtakes;
    if moves != [] {
      MoveKeepsOneActive(h, moves[0]);
      OneAtATimeNeverOvertakes(Next(h, moves[0]), moves[1..], c);
    }
  }

  lemma NobodyWaits(h: Hub, c: nat, u: nat)
    requires h.active == map[]
    ensures !WaitsFor(h, c, u)
  {
  }

  /** With nothing in progress a listed client that is in run has been sent everything since it registered. */
  lemma NothingOwed(h: Hub, c: nat)
    requires c < |h.clients| && h.active == map[] && Owed(h, c) && Sourced(h, h.clients[c]) && InRun(h.clients[c])
    ensures h.clients[c].sent == h.log[h.clients[c].since..]
  {
    var x := h.clients[c];
    RunIsStretch(h, x);
    InRunHolds(x, x.since + |x.from|);
    NobodyWaits(h, c, x.since + |x.from|);
    assert |h.log| <= x.since + |x.from|;
  }

  /**
   * With one broadcast at a time every client, listed or dropped, has been queued a gap-free run of the
   * broadcasts since its registration, its pump delivers a prefix of that run, and while no broadcast is
   * in progress a listed client has been queued all of it.
   */
  lemma BroadcastsArriveInOrder(moves: seq<Move>, c: nat)
    requires Possible(Init(), moves) && OneAtATime(Init(), moves)
    requires c < |Play(Init(), moves).clients|
    ensures var h := Play(Init(), moves);
            var x := h.clients[c];
            && x.since <= |h.log|
            && x.delivered <= x.sent <= h.log[x.since..]
            && (x.pumping ==> x.delivered + x.queue == x.sent)
            && (c in h.listed && h.active == map[] ==> x.sent == h.log[x.since..])
  {
    OrderedIff(Init(), moves, c);
    OneAtATimeNeverOvertakes(Init(), moves, c);
    var h := Play(Init(), moves);
    assert Sourced(h, h.clients[c]) && ClientOk(h.clients[c]);
    RunIsStretch(h, h.clients[c]);
    if c in h.listed && h.active == map[] { NothingOwed(h, c); }
  }

  // --- Two broadcasts at once ---

  function Upto(n: nat): (r: seq<nat>)
    ensures |r| == n && forall i :: 0 <= i < n ==> r[i] == i
  {
    seq(n, i => i)
  }

  /** One client that has been sent everything and written nothing. */
  function Stalled(msgs: seq<Message>): Hub {
    Hub([Client(true, msgs, true, 0, msgs, Upto(|msgs|), [])], {0}, map[], msgs, false)
  }

  lemma PlayStep(h: Hub, m: Move, rest: seq<Move>)
    requires Enabled(h, m) && Possible(Next(h, m), rest)
    ensures Possible(h, [m] + rest) && Play(h, [m] + rest) == Play(Next(h, m), rest)
  {
    assert ([m] + rest)[1..] == rest;
  }

  lemma {:induction false} PlayJoin(h: Hub, a: seq<Move>, b: seq<Move>)
    requires Possible(h, a) && Possible(Play(h, a), b)
    ensures Possible(h, a + b) && Play(h, a + b) == Play(Play(h, a), b)
    decreases |a|
  {
    hide Enabled, Next;
    if a == [] {
      assert a + b == b;
    } else {
      PlayJoin(Next(h, a[0]), a[1..], b);
      PlayStep(h, a[0], a[1..] + b);
      assert [a[0]] + (a[1..] + b) == a + b;
    }
  }

  /** One broadcast to a stalled client with room in its queue. */
  lemma OneMore(msgs: seq<Message>, msg: Message)
    requires |msgs| < QUEUE_SLOTS
    ensures var moves := [Begin(0, msg), Send(0, 0), EndSending(0)];
            Possible(Stalled(msgs), moves) && Play(Stalled(msgs), moves) == Stalled(msgs + [msg])
  {
    var h0 := Stalled(msgs);
    var h1 := Next(h0, Begin(0, msg));
    var h2 := Next(h1, Send(0, 0));
    assert {0} - {0} == {};
    var h3 := Next(h2, EndSending(0));
    assert h3.active == map[] && Upto(|msgs|) + [|msgs|] == Upto(|msgs| + 1);
    PlayStep(h2, EndSending(0), []);
    PlayStep(h1, Send(0, 0), [EndSending(0)]);
    PlayStep(h0, Begin(0, msg), [Send(0, 0), EndSending(0)]);
  }

  /** A client whose pump is slow can be reached with any queue that fits. */
  lemma {:induction false} StalledIsReachable(msgs: seq<Message>) returns (moves: seq<Move>)
    requires |msgs| <= QUEUE_SLOTS
    ensures Possible(Init(), moves) && Play(Init(), moves) == Stalled(msgs)
  {
    if msgs == [] {
      moves := [Register];
      PlayStep(Init(), Register, []);
      assert Upto(0) == [];
      assert Next(Init(), Register) == Stalled([]);
    } else {
      var init, last := msgs[..|msgs| - 1], msgs[|msgs| - 1];
      var before := StalledIsReachable(init);
      OneMore(init, last);
      assert init + [last] == msgs;
      PlayJoin(Init(), before, [Begin(0, last), Send(0, 0), EndSending(0)]);
      moves := before + [Begin(0, last), Send(0, 0), EndSending(0)];
    }
  }

  /**
   * The condition is needed: between a first broadcast finding a client slow and dropping it, its pump can
   * make room for a second one, and the client is then queued the second message without the first.
   */
  lemma TwoBroadcastsCanLeaveAGap(msgs: seq<Message>, a: Message, b: Message) returns (moves: seq<Move>)
    requires |msgs| == QUEUE_SLOTS && a != b
    ensures Possible(Init(), moves)
    ensures var h := Play(Init(), moves);
            && |h.clients| == 1 && 0 in h.listed && h.clients[0].since == 0
            && h.log == msgs + [a, b] && h.clients[0].sent == msgs + [b]
            && !(h.clients[0].sent <= h.log)
  {
    var before := StalledIsReachable(msgs);
    var after := [Begin(0, a), Send(0, 0), Deliver(0), Begin(1, b), Send(1, 0)];
    GapSteps(msgs, a, b);
    PlayJoin(Init(), before, after);
    moves := before + after;
    assert (msgs + [b])[|msgs|] == b && (msgs + [a, b])[|msgs|] == a;
  }

  lemma GapSteps(msgs: seq<Message>, a: Message, b: Message)
    requires |msgs| == QUEUE_SLOTS
    ensures var after := [Begin(0, a), Send(0, 0), Deliver(0), Begin(1, b), Send(1, 0)];
            && Possible(Stalled(msgs), after)
            && var h := Play(Stalled(msgs), after);
               |h.clients| == 1 && 0 in h.listed && h.clients[0].since == 0
               && h.log == msgs + [a, b] && h.clients[0].sent == msgs + [b]
  {
    var h0 := Stalled(msgs);
    var h1 := Next(h0, Begin(0, a));
    var h2 := Next(h1, Send(0, 0));
    var h3 := Next(h2, Deliver(0));
    var h4 := Next(h3, Begin(1, b));
    var h5 := Next(h4, Send(1, 0));
    assert msgs + [a] + [b] == msgs + [a, b];
    PlayStep(h4, Send(1, 0), []);
    PlayStep(h3, Begin(1, b), [Send(1, 0)]);
    PlayStep(h2, Deliver(0), [Begin(1, b), Send(1, 0)]);
    PlayStep(h1, Send(0, 0), [Deliver(0), Begin(1, b), Send(1, 0)]);
    PlayStep(h0, Begin(0, a), [Send(0, 0), Deliver(0), Begin(1, b), Send(1, 0)]);
  }
}
