/**
 The objects behind the delivery protocol: the nested map of delivery cursors, and the network whose
 methods move them. Every method is proved to take exactly the step the protocol specifies.
 */
module DeliveryNetwork {
  import opened Text
  import opened Positions
  import opened Delivery

  // ----- What is written to clients -----

  /** A message written to a connection of a client, with its position in the log if it was kept there. */
  datatype Sent = Sent(client: Client, target: Target, pos: Option<nat>)

  /** The record of decisions says of exactly those messages that they were queued. */
  ghost predicate Grounded(out: seq<Sent>, trace: set<Decision>) {
    forall c, t, i: nat :: Decision(Queued, c, t, i) in trace <==> Sent(c, t, Some(i)) in out
  }

  /** What a produced message writes to the first so many connections. */
  function Live(s: State, e: Event, id: Option<nat>, n: nat): seq<Sent>
    requires e.Produce? && n <= |s.conns|
  {
    if n == 0 then []
    else
      var dc := s.conns[n - 1];
      Live(s, e, id, n - 1) + if Forwards(s, dc, e) then [Sent(dc.client, e.target, id)] else []
  }

  /** Whether a message of the backlog is written, rather than kept from a client detached from the channel. */
  predicate Writes(s: State, e: Event, t: Target, i: nat)
    requires e.Connect?
  {
    t !in s.detached || (t, i) in e.relayed
  }

  /** What a backlog of so many messages writes. */
  function Relayed(s: State, e: Event, t: Target, ps: seq<nat>): seq<Sent>
    requires e.Connect?
  {
    if ps == [] then []
    else
      var n := |ps| - 1;
      Relayed(s, e, t, ps[..n]) + if Writes(s, e, t, ps[n]) then [Sent(e.conn.client, t, Some(ps[n]))] else []
  }

  lemma {:induction false} RelayedIff(s: State, e: Event, t: Target, ps: seq<nat>, x: Sent)
    requires e.Connect?
    ensures x in Relayed(s, e, t, ps) <==>
            x.client == e.conn.client && x.target == t && x.pos.Some? && x.pos.value in ps &&
            Writes(s, e, t, x.pos.value)
  {
    if ps != [] {
      var n := |ps| - 1;
      RelayedIff(s, e, t, ps[..n], x);
      assert ps == ps[..n] + [ps[n]];
    }
  }

  // ----- What a load returns -----

  lemma HistoryIff(l: seq<Message>, t: Target, omitted: set<(Target, nat)>, from: nat, i: nat)
    ensures i in History(l, t, omitted, from) <==>
            from <= i < |l| && l[i].Chat() && (t, i) !in omitted && |Visible(l, t, omitted, i + 1)| < BACKLOG_LIMIT
  {
    LastWhereIff(Shown(l, t, omitted), from, |l|, BACKLOG_LIMIT, i);
  }

  /** The fate of an unread message follows from whether it was loaded and whether it was written. */
  lemma FateLoaded(s: State, e: Event, t: Target, from: nat, i: nat)
    requires e.Connect? && t !in e.failed
    requires var l := LogOf(s.log, t); from <= i < |l| && l[i].Chat()
    ensures ReplayFate(s, e, t, i) ==
            if i in History(LogOf(s.log, t), t, e.omitted, from) then (if Writes(s, e, t, i) then Queued else Withheld)
            else if (t, i) in e.omitted then Omitted else TooOld
  {
    HistoryIff(LogOf(s.log, t), t, e.omitted, from, i);
  }

  lemma IntroduceNone(m: map<Key, nat>, t: Target, pos: nat)
    ensures Introduce(m, {}, t, pos) == m
  {
  }

  lemma IntroduceOne(m: map<Key, nat>, cs: set<Client>, t: Target, pos: nat, c: Client)
    ensures Introduce(m, cs + {c}, t, pos) == Introduce(m, cs, t, pos)[(t, c) := pos]
  {
  }

  /** Replaying one more target extends the decisions and moves one more cursor. */
  lemma ReplayOne(s: State, e: Event, done: set<Target>, t: Target)
    requires e.Connect? && done <= TargetsOf(s.cursors, e.conn.client)
    requires t !in done && (t, e.conn.client) in s.cursors
    ensures done + {t} <= TargetsOf(s.cursors, e.conn.client)
    ensures s.trace + AllReplayDecisions(s, e, done + {t}) ==
            s.trace + AllReplayDecisions(s, e, done) + ReplayDecisions(s, e, t)
  {
    assert (t, e.conn.client) in s.cursors.Keys;
    assert AllReplayDecisions(s, e, done + {t}) == AllReplayDecisions(s, e, done) + ReplayDecisions(s, e, t);
  }

  lemma ForwardOne(s: State, e: Event, done: set<Target>, t: Target)
    requires e.Connect? && t !in done && (t, e.conn.client) in s.cursors
    ensures var before := FastForward(s, e, done);
            FastForward(s, e, done + {t}) ==
            if t in e.stuck then before else before[(t, e.conn.client) := LastPos(s, t)]
  {
  }

  /** Delivery cursors indexed by target, then by client name. */
  class DeliveredStore {
    var m: map<Target, map<Client, nat>>
    ghost var flat: map<Key, nat>  // the same cursors as one relation

    constructor ()
      ensures Valid() && flat == map[]
    {
      m, flat := map[], map[];
    }

    ghost predicate Valid()
      reads this
    {
      && (forall t | t in m :: m[t] != map[])
      && (forall k :: k in flat <==> k.0 in m && k.1 in m[k.0])
      && (forall k | k in flat :: flat[k] == m[k.0][k.1])
    }

    method Empty() returns (r: bool)
      requires Valid()
      ensures r <==> flat == map[]
    {
      r := |m| == 0;
      if m != map[] {
        var t :| t in m;
        var c :| c in m[t];
        assert (t, c) in flat;
      }
    }

    method HasTarget(t: Target) returns (r: bool)
      requires Valid()
      ensures r <==> t in Targets(flat)
    {
      r := t in m;
      if r {
        ghost var c :| c in m[t];
        assert (t, c) in flat;
      }
    }

    method LoadID(t: Target, c: Client) returns (id: Option<nat>)
      requires Valid()
      ensures id == if (t, c) in flat then Some(flat[(t, c)]) else None
    {
      if t !in m || c !in m[t] {
        return None;
      }
      id := Some(m[t][c]);
    }

    method StoreID(t: Target, c: Client, id: nat)
      requires Valid()
      modifies this
      ensures Valid() && flat == old(flat)[(t, c) := id]
    {
      var clients := if t in m then m[t] else map[];
      m := m[t := clients[c := id]];
      flat := flat[(t, c) := id];
      assert c in m[t];
    }

    /** Store the same cursor on `t` for each of the given clients. */
    method StoreAll(t: Target, clients: set<Client>, id: nat)
      requires Valid()
      modifies this
      ensures Valid() && flat == Introduce(old(flat), clients, t, id)
    {
      var todo := clients;
      ghost var done := {};
      IntroduceNone(flat, t, id);
      while todo != {}
        invariant done + todo == clients
        invariant Valid() && flat == Introduce(old(flat), done, t, id)
      {
        var c :| c in todo;
        IntroduceOne(old(flat), done, t, id, c);
        StoreID(t, c, id);
        todo, done := todo - {c}, done + {c};
      }
      assert done == clients;
    }

    /** The cursors of one client, as they are written to the database. */
    method ReceiptsOf(c: Client) returns (r: map<Key, nat>)
      requires Valid()
      ensures r == map k | k in flat && k.1 == c :: flat[k]
    {
      r := map[];
      var todo := m.Keys;
      while todo != {}
        invariant todo <= m.Keys
        invariant forall k :: k in r <==> k in flat && k.1 == c && k.0 !in todo
        invariant forall k | k in r :: r[k] == flat[k]
      {
        var t :| t in todo;
        if c in m[t] {
          r := r[(t, c) := m[t][c]];
        }
        todo := todo - {t};
      }
    }

    /** The cursors read back when the network is set up. */
    method Load(receipts: map<Key, nat>)
      modifies this
      ensures Valid() && flat == receipts
    {
      m, flat := map[], map[];
      var todo := receipts.Keys;
      while todo != {}
        invariant Valid() && todo <= receipts.Keys
        invariant flat == map k | k in receipts && k !in todo :: receipts[k]
      {
        var k :| k in todo;
        StoreID(k.0, k.1, receipts[k]);
        assert (k.0, k.1) == k;
        todo := todo - {k};
      }
    }

    /** Every client name that has a cursor on some target. */
    method ClientNames() returns (cs: set<Client>)
      requires Valid()
      ensures cs == Clients(flat)
    {
      cs := {};
      var todo := m.Keys;
      while todo != {}
        invariant todo <= m.Keys
        invariant cs == set t, c | t in m && t !in todo && c in m[t] :: c
      {
        var t :| t in todo;
        cs := cs + m[t].Keys;
        todo := todo - {t};
      }
      assert forall c | c in cs :: exists k :: k in flat && k.1 == c by {
        forall c | c in cs ensures exists k :: k in flat && k.1 == c {
          var t :| t in m && c in m[t];
          assert (t, c) in flat;
        }
      }
      assert forall c | c in Clients(flat) :: c in cs;
    }
  }

  lemma LiveNext(out: seq<Sent>, s: State, e: Event, id: Option<nat>, i: nat)
    requires e.Produce? && i < |s.conns|
    ensures out + Live(s, e, id, i + 1) ==
            out + Live(s, e, id, i) + if Forwards(s, s.conns[i], e) then [Sent(s.conns[i].client, e.target, id)] else []
  {
  }

  /** The same decision on every unread message of a target. */
  ghost function AllUnread(s: State, t: Target, from: nat, c: Client, fate: Fate): set<Decision> {
    set i | from <= i < |LogOf(s.log, t)| && LogOf(s.log, t)[i].Chat() :: Decision(fate, c, t, i)
  }

  lemma FailedDecisions(s: State, e: Event, t: Target, from: nat)
    requires e.Connect? && (t, e.conn.client) in s.cursors && from == s.cursors[(t, e.conn.client)] && t in e.failed
    ensures AllUnread(s, t, from, e.conn.client, Unreadable) == ReplayDecisions(s, e, t)
  {
  }

  lemma GroundedFailed(out: seq<Sent>, trace: set<Decision>, s: State, t: Target, from: nat, c: Client)
    requires Grounded(out, trace)
    ensures Grounded(out, trace + AllUnread(s, t, from, c, Unreadable))
  {
  }

  /** What became of an unread message, from what was loaded and what was written. */
  function OutcomeOf(e: Event, t: Target, history: seq<nat>, written: seq<Sent>, i: nat): Fate
    requires e.Connect?
  {
    if Sent(e.conn.client, t, Some(i)) in written then Queued
    else if i in history then Withheld
    else if (t, i) in e.omitted then Omitted
    else TooOld
  }

  ghost function Outcomes(s: State, e: Event, t: Target, from: nat, history: seq<nat>,
                          written: seq<Sent>): set<Decision>
    requires e.Connect?
  {
    set i | from <= i < |LogOf(s.log, t)| && LogOf(s.log, t)[i].Chat()
        :: Decision(OutcomeOf(e, t, history, written, i), e.conn.client, t, i)
  }

  lemma LoadedDecisions(s: State, e: Event, t: Target, from: nat, history: seq<nat>)
    requires e.Connect? && (t, e.conn.client) in s.cursors && from == s.cursors[(t, e.conn.client)] && t !in e.failed
    requires history == History(LogOf(s.log, t), t, e.omitted, from)
    ensures Outcomes(s, e, t, from, history, Relayed(s, e, t, history)) == ReplayDecisions(s, e, t)
  {
    var l, written := LogOf(s.log, t), Relayed(s, e, t, history);
    forall i | from <= i < |l| && l[i].Chat()
      ensures OutcomeOf(e, t, history, written, i) == ReplayFate(s, e, t, i)
    {
      FateLoaded(s, e, t, from, i);
      RelayedIff(s, e, t, history, Sent(e.conn.client, t, Some(i)));
    }
  }

  lemma HistoryUnread(s: State, e: Event, t: Target, from: nat, i: nat)
    requires e.Connect? && i in History(LogOf(s.log, t), t, e.omitted, from)
    ensures from <= i < |LogOf(s.log, t)| && LogOf(s.log, t)[i].Chat()
  {
    HistoryIff(LogOf(s.log, t), t, e.omitted, from, i);
  }

  lemma GroundedLoaded(out: seq<Sent>, trace: set<Decision>, s: State, e: Event, t: Target, from: nat,
                       history: seq<nat>)
    requires e.Connect? && Grounded(out, trace) && history == History(LogOf(s.log, t), t, e.omitted, from)
    ensures var written := Relayed(s, e, t, history);
            Grounded(out + written, trace + Outcomes(s, e, t, from, history, written))
  {
    var written := Relayed(s, e, t, history);
    var more := Outcomes(s, e, t, from, history, written);
    forall c, u, i: nat
      ensures Decision(Queued, c, u, i) in more <==> Sent(c, u, Some(i)) in written
    {
      RelayedIff(s, e, t, history, Sent(c, u, Some(i)));
      if i in history {
        HistoryUnread(s, e, t, from, i);
      }
    }
  }

  /** One network of a user: its log, its channels' detached state, its cursors and its connections. */
  class Network {
    const store: Store
    const delivered: DeliveredStore
    var log: Log
    var conns: seq<Conn>
    var detached: set<Target>
    var receipts: map<Key, nat>
    var out: seq<Sent>
    ghost var trace: set<Decision>
    ghost var birth: map<Key, nat>
    ghost var receiptBirth: map<Key, nat>

    constructor (store: Store)
      ensures Valid() && fresh(delivered) && View() == Init(store) && Grounded(out, trace)
    {
      this.store, out := store, [];
      delivered := new DeliveredStore();
      log, conns, detached, receipts := map[], [], {}, map[];
      trace, birth, receiptBirth := {}, map[], map[];
    }

    ghost predicate Valid()
      reads this, delivered
    {
      delivered.Valid()
    }

    ghost function View(): State
      reads this, delivered
    {
      State(store, log, delivered.flat, conns, detached, receipts, trace, birth, receiptBirth)
    }

    /** The store's LastMsgID, as the number of entries before the next message. */
    method LastMsgID(t: Target) returns (pos: nat)
      ensures pos == LastPos(View(), t)
    {
      pos := store.last(|LogOf(log, t)|);
    }

    /** Save the last message ID for every known client if `t` is heard of for the first time. */
    method IntroduceTarget(t: Target, outcome: Outcome) returns (ok: bool)
      requires Valid()
      modifies `birth, delivered
      ensures Valid() && ok == !LookupFails(old(View()), t, outcome)
      ensures var s := old(View());
              var s1 := if ok && Introduces(s, t) then WithTarget(s, t) else s;
              delivered.flat == s1.cursors && birth == s1.birth
    {
      var empty := delivered.Empty();
      var known := delivered.HasTarget(t);
      if empty || known {
        return true;
      }
      if outcome.LastIdFailed? {
        return false;
      }
      AddTarget(t);
      ok := true;
    }

    /** Every known client gets a cursor at the last message. */
    method AddTarget(t: Target)
      requires Valid()
      modifies `birth, delivered
      ensures Valid() && delivered.flat == WithTarget(old(View()), t).cursors &&
              birth == WithTarget(old(View()), t).birth
    {
      var lastID := LastMsgID(t);
      var clients := delivered.ClientNames();
      delivered.StoreAll(t, clients, lastID);
      birth := Introduce(birth, clients, t, |LogOf(log, t)|);
    }

    method AppendLog(e: Event) returns (id: Option<nat>)
      requires Valid() && e.Produce?
      modifies `birth, `log, delivered
      ensures Valid() && (View(), id) == Record(old(View()), e)
    {
      if !Recordable(e.target, e.msg) {
        return None;
      }
      var ok := IntroduceTarget(e.target, e.outcome);
      if !ok || !e.outcome.Kept? {
        return None;
      }
      id := Some(|LogOf(log, e.target)|);
      log := log[e.target := LogOf(log, e.target) + [e.msg]];
    }

    /** Send a message to one connection, or only advance its history; without an ID it is sent and that is all. */
    method ForwardTo(i: nat, e: Event, id: Option<nat>)
      requires i < |conns| && e.Produce? && Grounded(out, trace)
      modifies `conns, `trace, `out
      ensures Grounded(out, trace)
      ensures out == old(out) +
              if Forwards(old(View()), old(conns)[i], e) then [Sent(old(conns)[i].client, e.target, id)] else []
      ensures id.None? ==> conns == old(conns) && trace == old(trace)
      ensures id.Some? ==>
                && conns == old(conns)[i := Ping(old(conns)[i], e, id.value)]
                && trace == old(trace) + {LiveDecision(old(View()), old(conns)[i], e, id.value)}
    {
      var dc := conns[i];
      var echo := dc.id == e.origin && e.msg.ours;
      var skip := e.blocked && !dc.blockedSub;
      var send := !skip && e.target !in detached && !e.ignored && (!echo || dc.echoMessage);
      if send {
        out := out + [Sent(dc.client, e.target, id)];
      }
      if id.Some? {
        trace := trace + {Decision(if send then Queued else Withheld, dc.client, e.target, id.value)};
        if !skip && e.msg.Chat() && !dc.chatHistory {
          conns := conns[i := dc.(pinged := dc.pinged + {(e.target, id.value)})];
        }
      }
    }

    method Produce(e: Event)
      requires Valid() && e.Produce? && Grounded(out, trace)
      modifies `birth, `log, `conns, `trace, `out, delivered
      ensures Valid() && View() == DoProduce(old(View()), e) && Grounded(out, trace)
      ensures var (s1, id) := Record(old(View()), e); out == old(out) + Live(s1, e, id, |s1.conns|)
    {
      var id := AppendLog(e);
      ForwardAll(e, id);
    }

    /** The loop over the open connections. */
    method ForwardAll(e: Event, id: Option<nat>)
      requires e.Produce? && Grounded(out, trace)
      modifies `conns, `trace, `out
      ensures Grounded(out, trace) && out == old(out) + Live(old(View()), e, id, |old(conns)|)
      ensures View() == if id.Some? then Forward(old(View()), e, id.value) else old(View())
    {
      ghost var s1, out1 := View(), out;
      assert out1 + [] == out1;
      for i := 0 to |conns|
        invariant Forwarding(s1, out1, e, id, i)
      {
        ForwardNext(s1, out1, e, id, i);
      }
      if id.Some? {
        assert conns == Forward(s1, e, id.value).conns;
      }
    }

    /** The first so many connections have been served. */
    ghost predicate Forwarding(s1: State, out1: seq<Sent>, e: Event, id: Option<nat>, i: nat)
      requires e.Produce?
      reads this
    {
      && i <= |conns| == |s1.conns| && out == out1 + Live(s1, e, id, i) && Grounded(out, trace)
      && detached == s1.detached
      && (id.None? ==> conns == s1.conns && trace == s1.trace)
      && (id.Some? ==>
            && (forall j | 0 <= j < i :: conns[j] == Ping(s1.conns[j], e, id.value))
            && (forall j | i <= j < |conns| :: conns[j] == s1.conns[j])
            && trace == s1.trace + set j | 0 <= j < i :: LiveDecision(s1, s1.conns[j], e, id.value))
    }

    method ForwardNext(ghost s1: State, ghost out1: seq<Sent>, e: Event, id: Option<nat>, i: nat)
      requires e.Produce? && i < |conns| && Forwarding(s1, out1, e, id, i)
      modifies `conns, `trace, `out
      ensures Forwarding(s1, out1, e, id, i + 1)
    {
      LiveNext(out1, s1, e, id, i);
      assert conns[i] == s1.conns[i];
      ForwardTo(i, e, id);
    }

    /** handlePong and ackMsgID. */
    method HandlePong(e: Event)
      requires Valid() && e.Pong? && Enabled(View(), e)
      modifies `birth, delivered
      ensures Valid() && View() == DoPong(old(View()), e)
    {
      Acknowledge(e.target, conns[e.index].client, e.pos);
    }

    method Acknowledge(t: Target, c: Client, pos: nat)
      requires Valid()
      modifies `birth, delivered
      ensures Valid() && delivered.flat == old(delivered.flat)[(t, c) := pos + 1]
      ensures birth == if (t, c) in old(delivered.flat) then old(birth) else old(birth)[(t, c) := pos + 1]
    {
      birth := if (t, c) in delivered.flat then birth else birth[(t, c) := pos + 1];
      delivered.StoreID(t, c, pos + 1);
    }

    /** The store's LoadLatestID: the last BACKLOG_LIMIT replayable messages behind a cursor that it finds. */
    method LoadLatestID(e: Event, t: Target, from: nat) returns (r: Result<seq<nat>>)
      requires e.Connect?
      ensures r == if t in e.failed then Err else Ok(History(LogOf(log, t), t, e.omitted, from))
    {
      if t in e.failed {
        return Err;
      }
      var l := LogOf(log, t);
      var found: seq<nat> := [];
      var i := from;
      while i < |l|
        invariant from <= i && found + Visible(l, t, e.omitted, i) == Visible(l, t, e.omitted, from)
      {
        if l[i].Chat() && (t, i) !in e.omitted {
          found := found + [i];
        }
        i := i + 1;
      }
      assert found + [] == found;
      r := Ok(if |found| <= BACKLOG_LIMIT then found else found[|found| - BACKLOG_LIMIT..]);
    }

    /** Replay does not touch the log, nor which channels are detached. */
    ghost predicate Replaying(s: State)
      reads this
    {
      log == s.log && detached == s.detached && store == s.store
    }

    /** sendTargetBacklog for a client whose cursor on `t` was `from` when the replay began. */
    method SendTargetBacklog(e: Event, t: Target, from: nat, ghost s: State)
      requires Replaying(s) && e.Connect? && (t, e.conn.client) in s.cursors && from == s.cursors[(t, e.conn.client)]
      requires Grounded(out, trace)
      modifies `trace, `out
      ensures Grounded(out, trace) && trace == old(trace) + ReplayDecisions(s, e, t)
      ensures out == old(out) +
              Relayed(s, e, t, if t in e.failed then [] else History(LogOf(s.log, t), t, e.omitted, from))
    {
      ghost var out0 := out;
      assert out0 + [] == out0;
      var history := LoadLatestID(e, t, from);
      if history.Err? {
        FailedDecisions(s, e, t, from);
        GroundedFailed(out, trace, s, t, from, e.conn.client);
        trace := trace + AllUnread(s, t, from, e.conn.client, Unreadable);
        return;
      }
      WriteHistory(e, t, history.value, s);
      ghost var written := out[|out0|..];
      assert written == Relayed(s, e, t, history.value);
      LoadedDecisions(s, e, t, from, history.value);
      GroundedLoaded(out0, trace, s, e, t, from, history.value);
      trace := trace + Outcomes(s, e, t, from, history.value, written);
    }

    /** The loop over the history that was loaded. */
    method WriteHistory(e: Event, t: Target, history: seq<nat>, ghost s: State)
      requires Replaying(s) && e.Connect?
      modifies `out
      ensures out == old(out) + Relayed(s, e, t, history)
    {
      ghost var out0 := out;
      assert out0 + [] == out0;
      for j := 0 to |history|
        invariant out == out0 + Relayed(s, e, t, history[..j])
      {
        assert history[..j + 1][..j] == history[..j];
        var pos := history[j];
        if t in detached {
          if (t, pos) in e.relayed {
            out := out + [Sent(e.conn.client, t, Some(pos))];
          }
        } else {
          out := out + [Sent(e.conn.client, t, Some(pos))];
        }
      }
      assert history[..|history|] == history;
    }

    /** Whether no other connection of that client name is open. */
    method IsFirstClient(c: Client) returns (first: bool)
      ensures first == First(View(), c)
    {
      first := true;
      for i := 0 to |conns|
        invariant first <==> forall j | 0 <= j < i :: conns[j].client != c
      {
        if conns[i].client == c {
          first := false;
        }
      }
    }

    /** The part of welcome that replays history to the first connection of a client name. */
    method Welcome(e: Event)
      requires Valid() && e.Connect? && Grounded(out, trace)
      modifies this, delivered
      ensures Valid() && View() == DoConnect(old(View()), e) && Grounded(out, trace)
    {
      var firstClient := IsFirstClient(e.conn.client);
      if !e.conn.chatHistory && firstClient {
        ReplayAll(e);
      }
      conns := conns + [e.conn];
    }

    /** Replay one target and fast-forward its cursor, after the targets in `done`. */
    method ReplayTarget(e: Event, t: Target, from: nat, ghost s: State, ghost done: set<Target>)
      requires Valid() && Replaying(s) && e.Connect? && done <= TargetsOf(s.cursors, e.conn.client) && t !in done
      requires delivered.flat == FastForward(s, e, done)
      requires (t, e.conn.client) in s.cursors && from == s.cursors[(t, e.conn.client)]
      requires trace == s.trace + AllReplayDecisions(s, e, done) && Grounded(out, trace)
      modifies `trace, `out, delivered
      ensures Valid() && delivered.flat == FastForward(s, e, done + {t})
      ensures done + {t} <= TargetsOf(s.cursors, e.conn.client)
      ensures trace == s.trace + AllReplayDecisions(s, e, done + {t}) && Grounded(out, trace)
    {
      ReplayOne(s, e, done, t);
      SendTargetBacklog(e, t, from, s);
      SkipToLast(e, t, s, done);
    }

    /** Fast-forward one cursor to the last message, unless the store cannot tell it. */
    method SkipToLast(e: Event, t: Target, ghost s: State, ghost done: set<Target>)
      requires Valid() && Replaying(s) && e.Connect? && t !in done && (t, e.conn.client) in s.cursors
      requires delivered.flat == FastForward(s, e, done)
      modifies delivered
      ensures Valid() && delivered.flat == FastForward(s, e, done + {t})
    {
      ForwardOne(s, e, done, t);
      if t !in e.stuck {
        var lastID := LastMsgID(t);
        delivered.StoreID(t, e.conn.client, lastID);
      }
    }

    /** One target of the loop in welcome, which may have no cursor of the client. */
    method ReplayNext(e: Event, t: Target, ghost s: State, ghost done: set<Target>) returns (ghost done': set<Target>)
      requires Valid() && Replaying(s) && e.Connect? && done <= TargetsOf(s.cursors, e.conn.client) && t !in done
      requires delivered.flat == FastForward(s, e, done)
      requires trace == s.trace + AllReplayDecisions(s, e, done) && Grounded(out, trace)
      modifies `trace, `out, delivered
      ensures done' == if (t, e.conn.client) in s.cursors then done + {t} else done
      ensures done' <= TargetsOf(s.cursors, e.conn.client)
      ensures Valid() && delivered.flat == FastForward(s, e, done')
      ensures trace == s.trace + AllReplayDecisions(s, e, done') && Grounded(out, trace)
    {
      done' := done;
      var lastDelivered := delivered.LoadID(t, e.conn.client);
      if lastDelivered.Some? {
        ReplayTarget(e, t, lastDelivered.value, s, done);
        done' := done + {t};
      }
    }

    method ReplayAll(e: Event)
      requires Valid() && e.Connect? && Grounded(out, trace)
      modifies `trace, `out, delivered
      ensures Valid() && View() == Replay(old(View()), e) && Grounded(out, trace)
    {
      ghost var s := View();
      var targets := delivered.m.Keys;
      ghost var done: set<Target> := {};
      assert delivered.flat == FastForward(s, e, done);
      while targets != {}
        invariant done <= TargetsOf(s.cursors, e.conn.client) <= targets + done && targets !! done
        invariant Valid() && delivered.flat == FastForward(s, e, done)
        invariant trace == s.trace + AllReplayDecisions(s, e, done) && Grounded(out, trace)
      {
        var t :| t in targets;
        done := ReplayNext(e, t, s, done);
        targets := targets - {t};
      }
      assert done == TargetsOf(s.cursors, e.conn.client);
    }

    /** storeClientDeliveryReceipts: replace what is stored for one client by its cursors. */
    method SaveClient(c: Client)
      requires Valid()
      modifies `receipts, `receiptBirth
      ensures receipts == if store.persistent then StoreReceipts(old(receipts), delivered.flat, c) else old(receipts)
      ensures receiptBirth == if store.persistent then StoreReceipts(old(receiptBirth), birth, c) else old(receiptBirth)
    {
      if !store.persistent {
        return;
      }
      var mine := delivered.ReceiptsOf(c);
      receipts := (map k | k in receipts && k.1 != c :: receipts[k]) + mine;
      receiptBirth := StoreReceipts(receiptBirth, birth, c);
    }

    /** eventDownstreamDisconnected: drop the connection and save its client's cursors. */
    method Leave(e: Event)
      requires Valid() && e.Disconnect? && Enabled(View(), e)
      modifies `conns, `receipts, `receiptBirth
      ensures Valid() && View() == DoDisconnect(old(View()), e)
    {
      var c := conns[e.index].client;
      conns := conns[..e.index] + conns[e.index + 1..];
      SaveClient(c);
    }

    /** eventStop: save the cursors of every client. */
    method SaveAll()
      requires Valid() && store.persistent
      modifies `receipts, `receiptBirth
      ensures receipts == Saved(old(receipts), delivered.flat, Clients(delivered.flat))
      ensures receiptBirth == Saved(old(receiptBirth), birth, Clients(delivered.flat))
    {
      var todo := delivered.ClientNames();
      ghost var done := {};
      SavedNone(receipts, delivered.flat);
      SavedNone(receiptBirth, birth);
      while todo != {}
        invariant done + todo == Clients(delivered.flat) && done !! todo
        invariant receipts == Saved(old(receipts), delivered.flat, done)
        invariant receiptBirth == Saved(old(receiptBirth), birth, done)
      {
        var c :| c in todo;
        SavedOne(old(receipts), delivered.flat, done, c);
        SavedOne(old(receiptBirth), birth, done, c);
        SaveClient(c);
        todo, done := todo - {c}, done + {c};
      }
      assert done == Clients(delivered.flat);
    }

    /** A clean stop saves the receipts of every client. */
    method Stop()
      requires Valid() && store.persistent && Paired(View())
      modifies `receipts, `receiptBirth
      ensures var cs := Clients(delivered.flat);
              && receipts == (map k | k in old(receipts) && k.1 !in cs :: old(receipts)[k]) + delivered.flat
              && receiptBirth == (map k | k in old(receiptBirth) && k.1 !in cs :: old(receiptBirth)[k]) + birth
    {
      SavedAll(receipts, delivered.flat);
      SavedAll(receiptBirth, birth);
      assert Clients(birth) == Clients(delivered.flat);
      SaveAll();
    }

    /** A stop, with the cursors saved, or a crash without; and the start after it, with what was saved. */
    method Restart(e: Event)
      requires Valid() && e.Restart? && Enabled(View(), e) && Paired(View())
      modifies `conns, `receipts, `receiptBirth, `birth, delivered
      ensures Valid() && View() == DoRestart(old(View()), e)
    {
      if e.clean {
        Stop();
      }
      conns := [];
      delivered.Load(receipts);
      birth := receiptBirth;
    }

    /** One event of a run. */
    method Handle(e: Event)
      requires Valid() && Enabled(View(), e) && Paired(View()) && Grounded(out, trace)
      modifies this, delivered
      ensures Valid() && View() == Step(old(View()), e) && Grounded(out, trace)
    {
      match e
      case Produce(_, _, _, _, _, _) => Produce(e);
      case Pong(_, _, _) => HandlePong(e);
      case Connect(_, _, _, _, _) => Welcome(e);
      case Disconnect(_) => Leave(e);
      case SetDetached(t, d) => detached := if d then detached + {t} else detached - {t};
      case Restart(_) => Restart(e);
    }
  }

  /** Receipts after saving some clients. */
  function Saved(stored: map<Key, nat>, cursors: map<Key, nat>, cs: set<Client>): map<Key, nat> {
    (map k | k in stored && k.1 !in cs :: stored[k]) + (map k | k in cursors && k.1 in cs :: cursors[k])
  }

  lemma SavedNone(stored: map<Key, nat>, cursors: map<Key, nat>)
    ensures Saved(stored, cursors, {}) == stored
  {
  }

  /** One receipt after saving some clients: the cursor of a client that was saved, and the old receipt of any other. */
  lemma SavedAt(stored: map<Key, nat>, cursors: map<Key, nat>, cs: set<Client>, k: Key)
    ensures var from := if k.1 in cs then cursors else stored;
            var saved := Saved(stored, cursors, cs);
            (k in saved <==> k in from) && (k in from ==> saved[k] == from[k])
  {
  }

  lemma StoredAt(stored: map<Key, nat>, cursors: map<Key, nat>, c: Client, k: Key)
    ensures var from := if k.1 == c then cursors else stored;
            var saved := StoreReceipts(stored, cursors, c);
            (k in saved <==> k in from) && (k in from ==> saved[k] == from[k])
  {
  }

  lemma SavedOne(stored: map<Key, nat>, cursors: map<Key, nat>, cs: set<Client>, c: Client)
    ensures Saved(stored, cursors, cs + {c}) == StoreReceipts(Saved(stored, cursors, cs), cursors, c)
  {
    var before := Saved(stored, cursors, cs);
    var a, b := Saved(stored, cursors, cs + {c}), StoreReceipts(before, cursors, c);
    forall k: Key
      ensures (k in a <==> k in b) && (k in a ==> a[k] == b[k])
    {
      SavedAt(stored, cursors, cs + {c}, k);
      SavedAt(stored, cursors, cs, k);
      StoredAt(before, cursors, c, k);
    }
    SameMaps(a, b);
  }

  lemma SameMaps(a: map<Key, nat>, b: map<Key, nat>)
    requires forall k: Key :: (k in a <==> k in b) && (k in a ==> a[k] == b[k])
    ensures a == b
  {
  }

  lemma SavedAll(stored: map<Key, nat>, cursors: map<Key, nat>)
    ensures var cs := Clients(cursors);
            Saved(stored, cursors, cs) == (map k | k in stored && k.1 !in cs :: stored[k]) + cursors
  {
    assert forall k <- cursors :: k in cursors.Keys && k.1 in Clients(cursors);
  }

  /** Every cursor has a birth, in memory and in the database. */
  ghost predicate Paired(s: State) {
    s.birth.Keys == s.cursors.Keys && s.receiptBirth.Keys == s.receipts.Keys
  }

  lemma PairedStep(s: State, e: Event)
    requires Paired(s) && Enabled(s, e)
    ensures Paired(Step(s, e))
  {
    match e
    case Produce(_, _, _, _, _, _) => PairedProduce(s, e);
    case Pong(_, _, _) =>
    case Connect(_, _, _, _, _) => PairedConnect(s, e);
    case Disconnect(_) => PairedDisconnect(s, e);
    case SetDetached(_, _) =>
    case Restart(_) => PairedRestart(s, e);
  }

  lemma PairedProduce(s: State, e: Event)
    requires Paired(s) && e.Produce?
    ensures Paired(DoProduce(s, e))
  {
    var (s1, id) := Record(s, e);
    assert Paired(s1);
  }

  lemma PairedConnect(s: State, e: Event)
    requires Paired(s) && e.Connect?
    ensures Paired(DoConnect(s, e))
  {
    assert FastForward(s, e, TargetsOf(s.cursors, e.conn.client)).Keys == s.cursors.Keys;
  }

  lemma PairedDisconnect(s: State, e: Event)
    requires Paired(s) && e.Disconnect? && Enabled(s, e)
    ensures Paired(DoDisconnect(s, e))
  {
    var c := s.conns[e.index].client;
    assert StoreReceipts(s.receiptBirth, s.birth, c).Keys == StoreReceipts(s.receipts, s.cursors, c).Keys;
  }

  lemma PairedRestart(s: State, e: Event)
    requires Paired(s) && e.Restart?
    ensures Paired(DoRestart(s, e))
  {
    assert DoRestart(s, e).birth.Keys == DoRestart(s, e).cursors.Keys;
  }

  /** The network over any run goes through the states the protocol specifies. */
  method HandleAll(net: Network, es: seq<Event>)
    requires net.Valid() && Paired(net.View()) && ValidRun(net.View(), es) && Grounded(net.out, net.trace)
    modifies net, net.delivered
    ensures net.Valid() && net.View() == Run(old(net.View()), es) && Grounded(net.out, net.trace)
    decreases es
  {
    if es != [] {
      PairedStep(net.View(), es[0]);
      net.Handle(es[0]);
      HandleAll(net, es[1..]);
    }
  }

  /** So at-least-once delivery holds of it, and of what it writes, for such a store that leaves nothing out. */
  method Serve(store: Store, es: seq<Event>) returns (net: Network)
    requires NeverAhead(store) && store.complete && ValidRun(Init(store), es)
    ensures net.View() == Run(Init(store), es) && Guarantee(net.View()) && Grounded(net.out, net.trace)
  {
    net := new Network(store);
    HandleAll(net, es);
    AtLeastOnce(store, es);
  }
}
