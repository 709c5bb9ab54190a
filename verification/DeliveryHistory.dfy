/**
 What a client name is owed and has not been given, in terms of what happened: a message is unaccounted for
 exactly if it was logged while no connection of that name was open and no replay has covered it since.
 */
module DeliveryHistory {
  import opened Text
  import opened Delivery

  // ----- What happened -----

  /** The event logs the message at position `i` of `t`. */
  predicate Logs(s: State, e: Event, t: Target, i: nat) {
    e.Produce? && e.target == t && Record(s, e).1 == Some(i)
  }

  /** The event replays that message to the client name: it is unread, and the load does not leave it out. */
  predicate Replays(s: State, e: Event, c: Client, t: Target, i: nat) {
    && e.Connect? && Enabled(s, e) && e.conn.client == c && !e.conn.chatHistory && First(s, c)
    && (t, c) in s.cursors && s.cursors[(t, c)] <= i < |LogOf(s.log, t)|
    && (t in e.failed || (t, i) !in e.omitted)
  }

  function Before(s: State, es: seq<Event>, j: nat): State
    requires j <= |es|
  {
    Run(s, es[..j])
  }

  /** At event `j` the message was logged with no connection of the name open. */
  predicate LoggedAway(s: State, es: seq<Event>, c: Client, t: Target, i: nat, j: nat)
    requires j < |es|
  {
    Logs(Before(s, es, j), es[j], t, i) && First(Before(s, es, j), c)
  }

  predicate ReplayedAt(s: State, es: seq<Event>, c: Client, t: Target, i: nat, k: nat)
    requires k < |es|
  {
    Replays(Before(s, es, k), es[k], c, t, i)
  }

  /** It was logged with no connection of the name open, and no replay has covered it since. */
  ghost predicate Missed(s: State, es: seq<Event>, c: Client, t: Target, i: nat) {
    exists j: nat | j < |es| ::
      LoggedAway(s, es, c, t, i, j) && forall k: nat | j < k < |es| :: !ReplayedAt(s, es, c, t, i, k)
  }

  // ----- One more event -----

  lemma {:induction false} RunSnoc(s: State, es: seq<Event>, e: Event)
    ensures Run(s, es + [e]) == Go(Run(s, es), e)
    decreases es
  {
    if es == [] {
      assert [e][1..] == [];
    } else {
      assert (es + [e])[0] == es[0] && (es + [e])[1..] == es[1..] + [e];
      RunSnoc(Go(s, es[0]), es[1..], e);
    }
  }

  lemma BeforeSnoc(s: State, es: seq<Event>, e: Event, j: nat)
    requires j <= |es|
    ensures Before(s, es + [e], j) == Before(s, es, j)
  {
    assert (es + [e])[..j] == es[..j];
  }

  lemma SnocAt(s: State, es: seq<Event>, e: Event, c: Client, t: Target, i: nat, j: nat)
    requires j <= |es|
    ensures j < |es| ==> LoggedAway(s, es + [e], c, t, i, j) == LoggedAway(s, es, c, t, i, j)
    ensures j < |es| ==> ReplayedAt(s, es + [e], c, t, i, j) == ReplayedAt(s, es, c, t, i, j)
    ensures j == |es| ==> LoggedAway(s, es + [e], c, t, i, j) == (Logs(Run(s, es), e, t, i) && First(Run(s, es), c))
    ensures j == |es| ==> ReplayedAt(s, es + [e], c, t, i, j) == Replays(Run(s, es), e, c, t, i)
  {
    BeforeSnoc(s, es, e, j);
    assert es[..|es|] == es;
    assert j < |es| ==> (es + [e])[j] == es[j];
  }

  /** Up to the last event, nothing depends on it. */
  ghost predicate AlikeBefore(s: State, es: seq<Event>, all: seq<Event>, c: Client, t: Target, i: nat)
    requires |es| <= |all|
  {
    forall j: nat | j < |es| ::
      LoggedAway(s, all, c, t, i, j) == LoggedAway(s, es, c, t, i, j) &&
      ReplayedAt(s, all, c, t, i, j) == ReplayedAt(s, es, c, t, i, j)
  }

  lemma MissedEarlier(s: State, es: seq<Event>, all: seq<Event>, c: Client, t: Target, i: nat)
    requires |all| == |es| + 1 && AlikeBefore(s, es, all, c, t, i) && Missed(s, all, c, t, i)
    ensures LoggedAway(s, all, c, t, i, |es|) || (Missed(s, es, c, t, i) && !ReplayedAt(s, all, c, t, i, |es|))
  {
    var j: nat :| j < |all| && LoggedAway(s, all, c, t, i, j) &&
                  forall k: nat | j < k < |all| :: !ReplayedAt(s, all, c, t, i, k);
    if j < |es| {
      assert !ReplayedAt(s, all, c, t, i, |es|);
      forall k: nat | j < k < |es| ensures !ReplayedAt(s, es, c, t, i, k) {
        assert !ReplayedAt(s, all, c, t, i, k);
      }
    }
  }

  lemma MissedStill(s: State, es: seq<Event>, all: seq<Event>, c: Client, t: Target, i: nat)
    requires |all| == |es| + 1 && AlikeBefore(s, es, all, c, t, i)
    requires Missed(s, es, c, t, i) && !ReplayedAt(s, all, c, t, i, |es|)
    ensures Missed(s, all, c, t, i)
  {
    var j: nat :| j < |es| && LoggedAway(s, es, c, t, i, j) &&
                  forall k: nat | j < k < |es| :: !ReplayedAt(s, es, c, t, i, k);
    assert LoggedAway(s, all, c, t, i, j);
    forall k: nat | j < k < |all| ensures !ReplayedAt(s, all, c, t, i, k) {
      assert k < |es| ==> !ReplayedAt(s, es, c, t, i, k);
    }
  }

  lemma MissedSnoc(s: State, es: seq<Event>, e: Event, c: Client, t: Target, i: nat)
    ensures var r := Run(s, es);
            Missed(s, es + [e], c, t, i) <==>
            (Logs(r, e, t, i) && First(r, c)) || (Missed(s, es, c, t, i) && !Replays(r, e, c, t, i))
  {
    var all := es + [e];
    assert AlikeBefore(s, es, all, c, t, i) by {
      forall j: nat | j < |es|
        ensures LoggedAway(s, all, c, t, i, j) == LoggedAway(s, es, c, t, i, j)
        ensures ReplayedAt(s, all, c, t, i, j) == ReplayedAt(s, es, c, t, i, j)
      {
        SnocAt(s, es, e, c, t, i, j);
      }
    }
    SnocAt(s, es, e, c, t, i, |es|);
    if Missed(s, all, c, t, i) {
      MissedEarlier(s, es, all, c, t, i);
    }
    if Missed(s, es, c, t, i) && !ReplayedAt(s, all, c, t, i, |es|) {
      MissedStill(s, es, all, c, t, i);
    }
  }

  // ----- What one event accounts for -----

  lemma ForwardAccounts(s: State, e: Event, pos: nat, c: Client, t: Target, i: nat)
    requires e.Produce?
    ensures Accounted(Forward(s, e, pos).trace, c, t, i) <==>
            Accounted(s.trace, c, t, i) || (t == e.target && i == pos && !First(s, c))
  {
    var s' := Forward(s, e, pos);
    if t == e.target && i == pos && !First(s, c) {
      var k :| 0 <= k < |s.conns| && s.conns[k].client == c;
      assert LiveDecision(s, s.conns[k], e, pos) in s'.trace;
    }
  }

  lemma ProduceAccounts(s: State, e: Event, c: Client, t: Target, i: nat)
    requires e.Produce?
    ensures Accounted(DoProduce(s, e).trace, c, t, i) <==>
            Accounted(s.trace, c, t, i) || (Logs(s, e, t, i) && !First(s, c))
  {
    var (s1, id) := Record(s, e);
    RecordTrace(s, e);
    if id.Some? {
      ForwardAccounts(s1, e, id.value, c, t, i);
    }
  }

  lemma ReplayAccounts(s: State, e: Event, c: Client, t: Target, i: nat)
    requires e.Connect? && Enabled(s, e) && i < |LogOf(s.log, t)| && LogOf(s.log, t)[i].Chat()
    ensures Accounted(DoConnect(s, e).trace, c, t, i) <==> Accounted(s.trace, c, t, i) || Replays(s, e, c, t, i)
  {
    var s' := DoConnect(s, e);
    if !e.conn.chatHistory && First(s, e.conn.client) {
      if Replays(s, e, c, t, i) {
        assert (t, c) in s.cursors.Keys && t in TargetsOf(s.cursors, c);
        assert Decision(ReplayFate(s, e, t, i), c, t, i) in ReplayDecisions(s, e, t);
      }
      forall d | d in s'.trace && d !in s.trace && d.client == c && d.target == t && d.pos == i && d.fate != Omitted
        ensures Replays(s, e, c, t, i)
      {
        var u :| u in TargetsOf(s.cursors, e.conn.client) && d in ReplayDecisions(s, e, u);
      }
    }
  }

  lemma GoAccounts(s: State, e: Event, c: Client, t: Target, i: nat)
    requires i < |LogOf(Go(s, e).log, t)| && LogOf(Go(s, e).log, t)[i].Chat()
    ensures Accounted(Go(s, e).trace, c, t, i) <==>
            Accounted(s.trace, c, t, i) || (Logs(s, e, t, i) && !First(s, c)) || Replays(s, e, c, t, i)
  {
    if Enabled(s, e) {
      match e
      case Produce(_, _, _, _, _, _) => ProduceAccounts(s, e, c, t, i);
      case Connect(_, _, _, _, _) => ReplayAccounts(s, e, c, t, i);
      case _ =>
    }
  }

  /** The log of a target grows by the message an event logs, and not otherwise. */
  lemma GoLogs(s: State, e: Event, t: Target, i: nat)
    ensures LogOf(s.log, t) <= LogOf(Go(s, e).log, t)
    ensures i < |LogOf(Go(s, e).log, t)| <==> i < |LogOf(s.log, t)| || Logs(s, e, t, i)
    ensures Logs(s, e, t, i) ==> i == |LogOf(s.log, t)|
  {
    if e.Produce? {
      RecordLogs(s, e, t, i);
    } else if Enabled(s, e) {
      OthersLogNothing(s, e);
    }
  }

  lemma RecordCases(s: State, e: Event)
    requires e.Produce?
    ensures var (s1, id) := Record(s, e);
            DoProduce(s, e).log == s1.log &&
            if id.None? then s1.log == s.log
            else s1.log == Appended(s.log, e.target, e.msg) && id == Some(|LogOf(s.log, e.target)|)
  {
    var (s1, id) := Record(s, e);
    assert id.Some? ==> Forward(s1, e, id.value).log == s1.log;
    assert WithTarget(s, e.target).log == s.log;
  }

  lemma RecordLogs(s: State, e: Event, t: Target, i: nat)
    requires e.Produce?
    ensures var log := DoProduce(s, e).log;
            && LogOf(s.log, t) <= LogOf(log, t)
            && (i < |LogOf(log, t)| <==> i < |LogOf(s.log, t)| || Logs(s, e, t, i))
            && (Logs(s, e, t, i) ==> i == |LogOf(s.log, t)|)
  {
    RecordCases(s, e);
    AppendedLogs(s.log, e.target, e.msg, t, i);
  }

  lemma AppendedLogs(log: Log, u: Target, m: Message, t: Target, i: nat)
    ensures var log' := Appended(log, u, m);
            && LogOf(log, t) <= LogOf(log', t)
            && (i < |LogOf(log', t)| <==> i < |LogOf(log, t)| || (t == u && i == |LogOf(log, t)|))
  {
  }

  lemma OthersLogNothing(s: State, e: Event)
    requires !e.Produce? && Enabled(s, e)
    ensures Step(s, e).log == s.log
  {
  }

  /** Nothing is decided before it is logged. */
  ghost predicate DecidedInLog(s: State) {
    forall d | d in s.trace :: d.pos < |LogOf(s.log, d.target)|
  }

  lemma GoDecidedInLog(s: State, e: Event)
    requires DecidedInLog(s)
    ensures DecidedInLog(Go(s, e))
  {
    var s' := Go(s, e);
    forall d | d in s'.trace ensures d.pos < |LogOf(s'.log, d.target)| {
      GoLogs(s, e, d.target, d.pos);
      if d !in s.trace && e.Connect? {
        var u :| u in TargetsOf(s.cursors, e.conn.client) && d in ReplayDecisions(s, e, u);
      } else if d !in s.trace && e.Produce? {
        RecordTrace(s, e);
        assert Logs(s, e, d.target, d.pos);
      }
    }
  }

  // ----- Over every sequence of events -----

  lemma {:induction false} RunDecidedInLog(s: State, es: seq<Event>)
    requires DecidedInLog(s)
    ensures DecidedInLog(Run(s, es))
    decreases es
  {
    if es != [] {
      GoDecidedInLog(s, es[0]);
      RunDecidedInLog(Go(s, es[0]), es[1..]);
    }
  }

  /** What is missed has been logged. */
  lemma {:induction false} MissedInLog(s: State, es: seq<Event>, c: Client, t: Target, i: nat)
    ensures Missed(s, es, c, t, i) ==> i < |LogOf(Run(s, es).log, t)|
    decreases |es|
  {
    if es != [] {
      var init, e := es[..|es| - 1], es[|es| - 1];
      assert es == init + [e];
      MissedInLog(s, init, c, t, i);
      MissedSnoc(s, init, e, c, t, i);
      RunSnoc(s, init, e);
      GoLogs(Run(s, init), e, t, i);
    }
  }

  /**
   Whatever happens, with whatever store: a replayable message is unaccounted for, for a client name, exactly if
   it was logged with no connection of that name open and no replay has covered it since.
   */
  lemma {:induction false} UnaccountedIff(store: Store, es: seq<Event>, c: Client, t: Target, i: nat)
    requires var l := LogOf(Run(Init(store), es).log, t); i < |l| && l[i].Chat()
    ensures !Accounted(Run(Init(store), es).trace, c, t, i) <==> Missed(Init(store), es, c, t, i)
    decreases |es|
  {
    var s0 := Init(store);
    if es != [] {
      var init, e := es[..|es| - 1], es[|es| - 1];
      assert es == init + [e];
      var s := Run(s0, init);
      RunSnoc(s0, init, e);
      MissedSnoc(s0, init, e, c, t, i);
      GoAccounts(s, e, c, t, i);
      GoLogs(s, e, t, i);
      if i < |LogOf(s.log, t)| {
        UnaccountedIff(store, init, c, t, i);
      } else {
        MissedInLog(s0, init, c, t, i);
        RunDecidedInLog(s0, init);
      }
    }
  }

  /** So the guarantee holds after any sequence of events exactly if no open backlog client misses what it is owed. */
  lemma GuaranteeIff(store: Store, es: seq<Event>)
    ensures var s0 := Init(store);
            var s := Run(s0, es);
            Guarantee(s) <==> forall k, i: nat | Owed(s, k, i) && Plain(s.conns, k.1) :: !Missed(s0, es, k.1, k.0, i)
  {
    var s := Run(Init(store), es);
    forall k, i: nat | Owed(s, k, i)
      ensures Accounted(s.trace, k.1, k.0, i) <==> !Missed(Init(store), es, k.1, k.0, i)
    {
      UnaccountedIff(store, es, k.1, k.0, i);
    }
  }

  // ----- A backlog client joining connections of its name -----

  lemma MixedConnect(s: State, e: Event, k: Key, i: nat)
    requires e.Connect? && !e.conn.chatHistory && !First(s, e.conn.client)
    ensures var s' := DoConnect(s, e);
            && s'.trace == s.trace && (Owed(s', k, i) <==> Owed(s, k, i))
            && (Plain(s'.conns, k.1) <==> Plain(s.conns, k.1) || k.1 == e.conn.client)
  {
    PlainAfterConnect(s, e, k.1);
  }

  /**
   A backlog client that joins connections of its own name keeps the guarantee exactly if one of them is a backlog
   client too, or none is open, or nothing owed to the name was logged while it was away and not replayed since.
   */
  lemma MixedConnectIff(store: Store, es: seq<Event>, e: Event)
    requires NeverAhead(store) && store.complete && ValidRun(Init(store), es)
    requires e.Connect? && !e.conn.chatHistory && Enabled(Run(Init(store), es), e)
    ensures var s0 := Init(store);
            var s := Run(s0, es);
            Guarantee(DoConnect(s, e)) <==>
            || Unmixed(s, e)
            || forall k, i: nat | Owed(s, k, i) && k.1 == e.conn.client :: !Missed(s0, es, k.1, k.0, i)
  {
    var s0 := Init(store);
    var s := Run(s0, es);
    RunKeeps(s0, es);
    RunStore(s0, es);
    CompleteGuarantee(s);
    if Unmixed(s, e) {
      ConnectKeeps(s, e);
      StepStore(s, e);
      CompleteGuarantee(DoConnect(s, e));
    } else {
      forall k, i: nat | Owed(s, k, i)
        ensures Accounted(s.trace, k.1, k.0, i) <==> !Missed(s0, es, k.1, k.0, i)
      {
        UnaccountedIff(store, es, k.1, k.0, i);
      }
      forall k, i: nat
        ensures Owed(DoConnect(s, e), k, i) <==> Owed(s, k, i)
        ensures Plain(DoConnect(s, e).conns, k.1) <==> Plain(s.conns, k.1) || k.1 == e.conn.client
      {
        MixedConnect(s, e, k, i);
      }
      assert DoConnect(s, e).trace == s.trace;
    }
  }

  /** A check the bouncer could make: a name with nothing unread past its cursors can be joined in any way. */
  lemma NothingUnreadKeeps(s: State, e: Event)
    requires Inv(s) && s.store.complete && e.Connect? && Enabled(s, e)
    requires forall k | k in s.cursors && k.1 == e.conn.client :: ChatFrom(LogOf(s.log, k.0), s.cursors[k]) == 0
    ensures Guarantee(DoConnect(s, e))
  {
    if Unmixed(s, e) {
      ConnectKeeps(s, e);
      StepStore(s, e);
      CompleteGuarantee(DoConnect(s, e));
    } else {
      var s' := DoConnect(s, e);
      CompleteGuarantee(s);
      forall k, i: nat | Owed(s', k, i) && Plain(s'.conns, k.1) ensures Accounted(s'.trace, k.1, k.0, i) {
        MixedConnect(s, e, k, i);
        if k.1 == e.conn.client {
          ReadUpTo(s, k, i);
        }
      }
    }
  }

  lemma ReadUpTo(s: State, k: Key, i: nat)
    requires Inv(s) && s.store.complete && Owed(s, k, i) && ChatFrom(LogOf(s.log, k.0), s.cursors[k]) == 0
    ensures Accounted(s.trace, k.1, k.0, i)
  {
    if i >= s.cursors[k] {
      ChatFromShrinks(LogOf(s.log, k.0), s.cursors[k], i);
    }
    assert Covered(s.trace, LogOf(s.log, k.0), k.1, k.0, s.birth[k], s.cursors[k]);
    assert Decided(s.trace, k.1, k.0, i);
  }
}
