/** Runs in which the delivery guarantee fails, and for which stores there are none. */
module DeliveryLimits {
  import opened Text
  import opened Delivery

  function Hello(): Message { Message("PRIVMSG", false, false) }

  function Hellos(n: nat): seq<Message> { seq(n, _ => Hello()) }

  function Says(t: Target): Event { Produce(t, Hello(), 0, false, false, Kept) }

  function Joins(id: nat, chatHistory: bool): Event {
    Connect(Conn(id, "a", chatHistory, true, false, {}), {}, {}, {}, {})
  }

  lemma SaysIsRecorded()
    ensures Recordable("#x", Hello()) && Recordable("#y", Hello()) && Hello().Chat()
  {
    assert "$"[0] == '$' && "#x"[0] == '#' && "#y"[0] == '#';
  }

  lemma {:induction false} RunAppend(s: State, es: seq<Event>, e: Event)
    requires ValidRun(s, es) && Enabled(Run(s, es), e) && Unmixed(Run(s, es), e)
    ensures ValidRun(s, es + [e]) && Run(s, es + [e]) == Step(Run(s, es), e)
    decreases es
  {
    if es != [] {
      RunAppend(Go(s, es[0]), es[1..], e);
      assert (es + [e])[0] == es[0] && (es + [e])[1..] == es[1..] + [e];
    } else {
      assert [e][1..] == [];
    }
  }

  // ----- A client that leaves after so many messages -----

  /** Client "a" is online and was sent so many messages of "#x", none of them acknowledged. */
  ghost predicate Talked(s: State, store: Store, n: nat) {
    && s.store == store && s.detached == {} && s.cursors == map[] == s.birth && LogOf(s.log, "#x") == Hellos(n)
    && (forall t | t != "#x" :: LogOf(s.log, t) == [])
    && |s.conns| == 1 && s.conns[0].client == "a" && !s.conns[0].chatHistory
    && (n > 0 ==> ("#x", n - 1) in s.conns[0].pinged)
    && forall d | d in s.trace :: d.target == "#x" && d.pos < n
  }

  lemma FirstJoin(store: Store)
    ensures var e := Joins(1, false);
            Enabled(Init(store), e) && Unmixed(Init(store), e) && Talked(Step(Init(store), e), store, 0)
  {
    var e, s := Joins(1, false), Init(store);
    assert TargetsOf(s.cursors, "a") == {} && AllReplayDecisions(s, e, {}) == {} && FastForward(s, e, {}) == map[];
    assert Step(s, e) == s.(conns := [e.conn]);
  }

  lemma NextSays(s: State, n: nat)
    requires Talked(s, s.store, n)
    ensures Talked(Step(s, Says("#x")), s.store, n + 1)
  {
    SaysIsRecorded();
    var e := Says("#x");
    assert !Introduces(s, "#x");
    assert Hellos(n) + [Hello()] == Hellos(n + 1);
    var s1 := s.(log := Appended(s.log, "#x", Hello()));
    assert Step(s, e) == Forward(s1, e, n);
    assert Ping(s.conns[0], e, n) == s.conns[0].(pinged := s.conns[0].pinged + {("#x", n)});
    var s' := Step(s, e);
    assert LogOf(s'.log, "#x") == Hellos(n + 1);
    forall t | t != "#x" ensures LogOf(s'.log, t) == [] {
      assert LogOf(s'.log, t) == LogOf(s.log, t);
    }
    forall d | d in s'.trace ensures d.target == "#x" && d.pos < n + 1 {
      assert d in s.trace || d == LiveDecision(s1, s1.conns[0], e, n);
    }
  }

  lemma {:induction false} TalkedReached(store: Store, n: nat) returns (es: seq<Event>)
    ensures ValidRun(Init(store), es) && Talked(Run(Init(store), es), store, n)
  {
    if n == 0 {
      FirstJoin(store);
      RunAppend(Init(store), [], Joins(1, false));
      es := [] + [Joins(1, false)];
    } else {
      es := TalkedReached(store, n - 1);
      NextSays(Run(Init(store), es), n - 1);
      RunAppend(Init(store), es, Says("#x"));
      es := es + [Says("#x")];
    }
  }

  /** The client is offline, with a cursor made at the last of so many messages of "#x". */
  ghost predicate Away(s: State, store: Store, n: nat, cursor: nat) {
    && s.store == store && s.conns == [] && s.detached == {} && LogOf(s.log, "#x") == Hellos(n)
    && (forall t | t != "#x" :: LogOf(s.log, t) == [])
    && s.cursors == map[("#x", "a") := cursor] && s.birth == map[("#x", "a") := n]
    && forall d | d in s.trace :: d.target == "#x" && d.pos < n
  }

  /** The last message is acknowledged and the client leaves. */
  lemma AwayReached(store: Store, n: nat) returns (es: seq<Event>)
    requires n > 0
    ensures ValidRun(Init(store), es) && Away(Run(Init(store), es), store, n, n)
  {
    es := TalkedReached(store, n);
    var e1, e2 := Pong(0, "#x", n - 1), Disconnect(0);
    RunAppend(Init(store), es, e1);
    RunAppend(Init(store), es + [e1], e2);
    es := es + [e1] + [e2];
  }

  /** One more message for the client that is away. */
  ghost predicate Behind(s: State, store: Store, n: nat, cursor: nat) {
    && s.store == store && s.conns == [] && s.detached == {} && LogOf(s.log, "#x") == Hellos(n + 1)
    && s.cursors == map[("#x", "a") := cursor] && s.birth == map[("#x", "a") := n]
    && forall d | d in s.trace :: d.target == "#x" && d.pos < n
  }

  lemma OneMore(s: State, n: nat, cursor: nat)
    requires Away(s, s.store, n, cursor)
    ensures Behind(Step(s, Says("#x")), s.store, n, cursor)
  {
    SaysIsRecorded();
    assert ("#x", "a") in s.cursors.Keys && "#x" in Targets(s.cursors);
    assert Hellos(n) + [Hello()] == Hellos(n + 1);
    var (s1, id) := Record(s, Says("#x"));
    assert s1.conns == [];
  }

  // ----- A last ID that is ahead -----

  lemma OnlyTarget(s: State, cursor: nat)
    requires s.cursors == map[("#x", "a") := cursor]
    ensures TargetsOf(s.cursors, "a") == {"#x"}
  {
    assert ("#x", "a") in s.cursors.Keys;
  }

  /** A client with nothing unread is sent nothing, and its cursor moves to the last ID. */
  lemma NothingToReplay(s: State, e: Event, id: nat, cursor: nat)
    requires e == Joins(id, false) && First(s, "a")
    requires s.cursors == map[("#x", "a") := cursor] && cursor >= |LogOf(s.log, "#x")|
    ensures DoConnect(s, e) ==
            s.(conns := s.conns + [e.conn], cursors := map[("#x", "a") := LastPos(s, "#x")])
  {
    OnlyTarget(s, cursor);
    NothingDecided(s, e, {"#x"});
    ForwardOnly(s, e, cursor);
  }

  lemma ForwardOnly(s: State, e: Event, cursor: nat)
    requires e.Connect? && e.conn.client == "a" && e.stuck == {} && s.cursors == map[("#x", "a") := cursor]
    ensures FastForward(s, e, {"#x"}) == map[("#x", "a") := LastPos(s, "#x")]
  {
    assert ("#x", "a") in s.cursors.Keys;
  }

  lemma NothingDecided(s: State, e: Event, ts: set<Target>)
    requires e.Connect? && ts <= TargetsOf(s.cursors, e.conn.client)
    requires forall k | k in s.cursors :: s.cursors[k] >= |LogOf(s.log, k.0)|
    ensures s.trace + AllReplayDecisions(s, e, ts) == s.trace
  {
    forall t | t in ts ensures ReplayDecisions(s, e, t) == {} {
      assert (t, e.conn.client) in s.cursors;
    }
    assert AllReplayDecisions(s, e, ts) == {};
  }

  /** Coming back and leaving again moves the cursor past messages that are not yet logged. */
  lemma Overshoots(store: Store, n: nat) returns (es: seq<Event>)
    requires n > 0
    ensures ValidRun(Init(store), es) && Away(Run(Init(store), es), store, n, store.last(n))
  {
    es := AwayReached(store, n);
    var s0 := Run(Init(store), es);
    var e1, e2 := Joins(2, false), Disconnect(0);
    NothingToReplay(s0, e1, 2, n);
    RunAppend(Init(store), es, e1);
    RunAppend(Init(store), es + [e1], e2);
    es := es + [e1] + [e2];
  }

  lemma NotReplayed(s: State, n: nat, cursor: nat)
    requires Behind(s, s.store, n, cursor) && cursor > n
    ensures !Guarantee(Step(s, Joins(3, false)))
  {
    var e := Joins(3, false);
    NothingToReplay(s, e, 3, cursor);
    SaysIsRecorded();
    Lost(Step(s, e), "#x", n);
  }

  /** A message that is owed to the last connection and on which nothing was decided. */
  lemma Lost(s: State, t: Target, i: nat)
    requires s.conns != [] && s.conns[|s.conns| - 1].client == "a" && !s.conns[|s.conns| - 1].chatHistory
    requires Owed(s, (t, "a"), i) && forall d | d in s.trace :: d.target != t || d.pos != i
    ensures !Guarantee(s)
  {
    assert Plain(s.conns, "a");
    assert !Accounted(s.trace, "a", t, i);
  }

  /** So the next message, logged while the client is away, is never sent to it. */
  lemma AheadLoses(store: Store, n: nat) returns (es: seq<Event>)
    requires n > 0 && store.last(n) > n
    ensures ValidRun(Init(store), es) && !Guarantee(Run(Init(store), es))
  {
    es := Overshoots(store, n);
    var s := Run(Init(store), es);
    var e1, e2 := Says("#x"), Joins(3, false);
    RunAppend(Init(store), es, e1);
    OneMore(s, n, store.last(n));
    RunAppend(Init(store), es + [e1], e2);
    NotReplayed(Step(s, e1), n, store.last(n));
    es := es + [e1] + [e2];
  }

  /** Nor is the first message of a target, if the last ID of an empty log is ahead. */
  lemma FirstLoses(store: Store) returns (es: seq<Event>)
    requires store.last(0) > 0
    ensures ValidRun(Init(store), es) && !Guarantee(Run(Init(store), es))
  {
    es := AwayReached(store, 1);
    var s := Run(Init(store), es);
    var e1, e2 := Says("#y"), Joins(2, false);
    RunAppend(Init(store), es, e1);
    SecondTarget(s);
    RunAppend(Init(store), es + [e1], e2);
    es := es + [e1] + [e2];
  }

  /** The client has a cursor on each of two targets, and has read neither log to the end with a decision. */
  ghost predicate OnTwo(s: State, store: Store) {
    && s.store == store && s.conns == [] && s.detached == {}
    && LogOf(s.log, "#x") == Hellos(1) && LogOf(s.log, "#y") == Hellos(1)
    && s.cursors == map[("#x", "a") := 1, ("#y", "a") := store.last(0)]
    && s.birth == map[("#x", "a") := 1, ("#y", "a") := 0]
    && forall d | d in s.trace :: d.target == "#x"
  }

  lemma SecondTarget(s: State)
    requires Away(s, s.store, 1, 1) && s.store.last(0) > 0
    ensures var e := Joins(2, false);
            var s1 := Step(s, Says("#y"));
            Enabled(s1, e) && Unmixed(s1, e) && !Guarantee(Step(s1, e))
  {
    Introduced(s);
    TwoLose(Step(s, Says("#y")));
  }

  lemma TwoLose(s: State)
    requires OnTwo(s, s.store) && s.store.last(0) > 0
    ensures var e := Joins(2, false); Enabled(s, e) && Unmixed(s, e) && !Guarantee(Step(s, e))
  {
    var e := Joins(2, false);
    SaysIsRecorded();
    TwoRead(s, e);
    Lost(Step(s, e), "#y", 0);
  }

  /** The first message of another target gives the client a cursor on it. */
  lemma Introduced(s: State)
    requires Away(s, s.store, 1, 1)
    ensures OnTwo(Step(s, Says("#y")), s.store)
  {
    SaysIsRecorded();
    var e, s1 := Says("#y"), WithTarget(s, "#y");
    IntroducesY(s);
    assert Record(s, e) == (s1.(log := Appended(s1.log, "#y", Hello())), Some(0));
    assert [] + [Hello()] == Hellos(1);
    var s2 := Step(s, e);
    assert s2.conns == [] && s2.trace == s.trace && s2.cursors == s1.cursors && s2.birth == s1.birth;
    assert LogOf(s2.log, "#y") == Hellos(1) && LogOf(s2.log, "#x") == LogOf(s.log, "#x");
  }

  lemma IntroducesY(s: State)
    requires Away(s, s.store, 1, 1)
    ensures Introduces(s, "#y") && LogOf(s.log, "#y") == []
    ensures WithTarget(s, "#y") == s.(cursors := map[("#x", "a") := 1, ("#y", "a") := s.store.last(0)],
                                      birth := map[("#x", "a") := 1, ("#y", "a") := 0])
  {
    assert ("#x", "a") in s.cursors.Keys;
    assert Targets(s.cursors) == {"#x"} && Clients(s.cursors) == {"a"};
    IntroduceOne(s.cursors, "#y", s.store.last(0));
    IntroduceOne(s.birth, "#y", 0);
  }

  lemma IntroduceOne(m: map<Key, nat>, t: Target, pos: nat)
    ensures Introduce(m, {"a"}, t, pos) == m[(t, "a") := pos]
  {
  }

  /** Nothing is replayed to a client whose cursors are at or past the ends of its logs. */
  lemma TwoRead(s: State, e: Event)
    requires e == Joins(2, false) && s.conns == []
    requires s.cursors.Keys == {("#x", "a"), ("#y", "a")}
    requires forall k | k in s.cursors :: s.cursors[k] >= |LogOf(s.log, k.0)|
    ensures Step(s, e).trace == s.trace && Step(s, e).conns == [e.conn]
    ensures Step(s, e).cursors.Keys == s.cursors.Keys && Step(s, e).log == s.log && Step(s, e).birth == s.birth
  {
    NothingDecided(s, e, TargetsOf(s.cursors, "a"));
  }

  // ----- A load that leaves a message out -----

  /** A client that comes back to a load which leaves the second message out. */
  function JoinsBlind(id: nat): Event {
    Connect(Conn(id, "a", false, true, false, {}), {}, {}, {}, {("#x", 1)})
  }

  lemma BlindLoses(s: State)
    requires Behind(s, s.store, 1, 1) && !s.store.complete
    ensures Enabled(s, JoinsBlind(2)) && Unmixed(s, JoinsBlind(2)) && !Guarantee(Step(s, JoinsBlind(2)))
  {
    var e := JoinsBlind(2);
    var s' := Step(s, e);
    SaysIsRecorded();
    OnlyTarget(s, 1);
    assert s'.conns[0].client == "a" && Plain(s'.conns, "a");
    forall d | d in s'.trace && d !in s.trace ensures d.fate == Omitted || d.pos != 1 {
      var t :| t in TargetsOf(s.cursors, "a") && d in ReplayDecisions(s, e, t);
    }
    assert !Accounted(s'.trace, "a", "#x", 1);
    assert Owed(s', ("#x", "a"), 1);
  }

  /** With a store whose loads may leave something out, a message logged while the client is away can be lost. */
  lemma IncompleteLoadLoses(store: Store) returns (es: seq<Event>)
    requires !store.complete
    ensures ValidRun(Init(store), es) && !Guarantee(Run(Init(store), es))
  {
    es := AwayReached(store, 1);
    var e1, e2 := Says("#x"), JoinsBlind(2);
    var s := Run(Init(store), es);
    RunAppend(Init(store), es, e1);
    OneMore(s, 1, 1);
    BlindLoses(Step(s, e1));
    RunAppend(Init(store), es + [e1], e2);
    es := es + [e1] + [e2];
  }

  /** Every run keeps the guarantee exactly if the store's LastMsgID is never ahead and its loads leave nothing out. */
  lemma GuaranteeIffStore(store: Store)
    ensures (forall es | ValidRun(Init(store), es) :: Guarantee(Run(Init(store), es))) <==>
            NeverAhead(store) && store.complete
  {
    if !store.complete {
      var es := IncompleteLoadLoses(store);
    } else if NeverAhead(store) {
      forall es | ValidRun(Init(store), es) ensures Guarantee(Run(Init(store), es)) {
        AtLeastOnce(store, es);
      }
    } else {
      var n: nat :| store.last(n) > n;
      if n == 0 {
        var es := FirstLoses(store);
      } else {
        var es := AheadLoses(store, n);
      }
    }
  }

  /** The in-memory store: one too far once a buffer exists, and gone with the program. */
  function Memory(): Store {
    Store((n: nat) => if n == 0 then 0 else n + 1, false, true)
  }

  lemma MemoryLoses() returns (es: seq<Event>)
    ensures ValidRun(Init(Memory()), es) && !Guarantee(Run(Init(Memory()), es))
  {
    assert Memory().last(1) == 2;
    es := AheadLoses(Memory(), 1);
  }

  // ----- A backlog client joining a CHATHISTORY connection -----

  /** A reachable state in which a backlog client joins a CHATHISTORY connection of its name and misses a message. */
  lemma MixedNamesLose(store: Store) returns (es: seq<Event>, e: Event)
    ensures ValidRun(Init(store), es)
    ensures Enabled(Run(Init(store), es), e) && e.Connect? && !Guarantee(DoConnect(Run(Init(store), es), e))
  {
    es := AwayReached(store, 1);
    var s0 := Run(Init(store), es);
    var e1, e2 := Says("#x"), Joins(2, true);
    e := Joins(3, false);
    var s1 := Step(s0, e1);
    RunAppend(Init(store), es, e1);
    OneMore(s0, 1, 1);
    SaysIsRecorded();
    var s2 := Step(s1, e2);
    RunAppend(Init(store), es + [e1], e2);
    assert s2.conns[0].client == "a" && !First(s2, "a");
    var s3 := DoConnect(s2, e);
    assert s3.trace == s1.trace && s3.conns[1] == e.conn;
    Lost(s3, "#x", 1);
    es := es + [e1] + [e2];
  }
}
