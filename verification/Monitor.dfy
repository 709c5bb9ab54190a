/**
 MONITOR synchronisation: the bouncer keeps one list on the server for all its clients, and after every
 change of theirs sends the difference.
 */
module Monitor {
  import opened Text

  const MAX_MESSAGE := 512

  /** A MONITOR message: a subcommand, and a list of targets unless it is to clear. */
  datatype Message = Message(sub: string, targets: Option<string>)

  function Length(m: Message): nat {
    |"MONITOR "| + |m.sub| + match m.targets case Some(t) => 1 + |t| case None => 0
  }

  // ----- The server -----

  /** The targets of a message, as the server reads them. */
  function Targets(m: Message): seq<string> {
    match m.targets case Some(t) => Split(t, ',') case None => []
  }

  function Names(ts: seq<string>): set<string> {
    set t | t in ts && t != ""
  }

  function Receive(list: set<string>, m: Message): set<string> {
    if m.sub == "C" then {}
    else if m.sub == "-" then list - Names(Targets(m))
    else if m.sub == "+" then list + Names(Targets(m))
    else list
  }

  function ReceiveAll(list: set<string>, ms: seq<Message>): set<string> {
    if ms == [] then list
    else Receive(ReceiveAll(list, ms[..|ms| - 1]), ms[|ms| - 1])
  }

  lemma {:induction false} ReceiveConcat(list: set<string>, a: seq<Message>, b: seq<Message>)
    ensures ReceiveAll(list, a + b) == ReceiveAll(ReceiveAll(list, a), b)
  {
    if b == [] {
      assert a + b == a;
    } else {
      assert (a + b)[..|a + b| - 1] == a + b[..|b| - 1];
      ReceiveConcat(list, a, b[..|b| - 1]);
    }
  }

  // ----- Packing -----

  /** All targets of a list of messages, in order. */
  function Content(ms: seq<Message>): seq<string> {
    if ms == [] then [] else Content(ms[..|ms| - 1]) + Targets(ms[|ms| - 1])
  }

  predicate CommaFree(ts: seq<string>) {
    forall t <- ts :: Free(t, ',')
  }

  /** Short enough, unless a single target is too long by itself. */
  predicate Fits(m: Message) {
    Length(m) <= MAX_MESSAGE || |Targets(m)| == 1
  }

  function Cost(ts: seq<string>): nat {
    if ts == [] then 0 else Cost(ts[..|ts| - 1]) + |ts[|ts| - 1]| + 1
  }

  lemma {:induction false} CostIsLength(ts: seq<string>)
    requires ts != []
    ensures Cost(ts) == |Join(ts, ',')| + 1
  {
    if |ts| > 1 {
      var init, last := ts[..|ts| - 1], ts[|ts| - 1];
      CostIsLength(init);
      assert ts == init + [last];
      JoinSnoc(init, last, ',');
    } else {
      assert ts[..0] == [];
    }
  }

  /** A message from a buffer carries its targets and is short enough if its cost was. */
  lemma Packed(sub: string, buf: seq<string>)
    requires buf != [] && CommaFree(buf) && |sub| == 1
    ensures var m := Message(sub, Some(Join(buf, ',')));
            && Targets(m) == buf
            && (Cost(buf) + 10 <= MAX_MESSAGE || |buf| == 1 ==> Fits(m))
  {
    SplitJoin(buf, ',');
    CostIsLength(buf);
  }

  /** Leaving out empty names, which the server ignores. */
  function Solid(ts: seq<string>): seq<string> {
    if ts == [] then []
    else
      var rest, t := Solid(ts[..|ts| - 1]), ts[|ts| - 1];
      if t == "" then rest else rest + [t]
  }

  lemma {:induction false} SolidConcat(a: seq<string>, b: seq<string>)
    ensures Solid(a + b) == Solid(a) + Solid(b)
  {
    if b == [] {
      assert a + b == a;
    } else {
      assert (a + b)[..|a + b| - 1] == a + b[..|b| - 1];
      SolidConcat(a, b[..|b| - 1]);
      Assoc(Solid(a), Solid(b[..|b| - 1]), [b[|b| - 1]]);
    }
  }

  /** What the messages so far and the buffer hold. */
  ghost predicate Packing(sub: string, ms: seq<Message>, buf: seq<string>, done: seq<string>) {
    && (forall m <- ms :: m.sub == sub && m.targets.Some? && Fits(m))
    && Solid(Content(ms)) + Solid(buf) == Solid(done)
    && CommaFree(buf) && (Cost(buf) + 10 <= MAX_MESSAGE || |buf| == 1)
  }

  lemma FlushPacks(sub: string, ms: seq<Message>, buf: seq<string>, done: seq<string>)
    requires |sub| == 1 && Packing(sub, ms, buf, done)
    ensures Packing(sub, ms + [Message(sub, Some(Join(buf, ',')))], [], done)
  {
    var m := Message(sub, Some(Join(buf, ',')));
    if buf != [] {
      Packed(sub, buf);
    } else {
      assert Targets(m) == [""];
    }
    assert (ms + [m])[..|ms|] == ms;
    SolidConcat(Content(ms), Targets(m));
    assert Solid([""]) == [] by {
      assert [""][..0] == [];
    }
    assert Solid(done) + [] == Solid(done);
  }

  lemma AddPacks(sub: string, ms: seq<Message>, buf: seq<string>, done: seq<string>, t: string)
    requires Packing(sub, ms, buf, done) && Free(t, ',') && (Cost(buf) + |t| + 1 + 10 <= MAX_MESSAGE || buf == [])
    ensures Packing(sub, ms, buf + [t], done + [t]) && Cost(buf + [t]) == Cost(buf) + |t| + 1
  {
    assert (buf + [t])[..|buf|] == buf && (done + [t])[..|done|] == done;
    Assoc(Solid(Content(ms)), Solid(buf), [t]);
  }

  /** One target: into the buffer, after sending what is there if it would be too much. */
  method PackOne(sub: string, ms0: seq<Message>, buf0: seq<string>, n0: nat, target: string, ghost done: seq<string>)
    returns (ms: seq<Message>, buf: seq<string>, n: nat)
    requires |sub| == 1 && n0 == Cost(buf0) && Packing(sub, ms0, buf0, done) && Free(target, ',')
    ensures n == Cost(buf) && Packing(sub, ms, buf, done + [target])
  {
    ms, buf, n := ms0, buf0, n0;
    var maxLength := MAX_MESSAGE - |"MONITOR " + sub + " "|;
    if n + |target| + 1 > maxLength {
      FlushPacks(sub, ms, buf, done);
      ms := ms + [Message(sub, Some(Join(buf, ',')))];
      buf := [];
      n := 0;
    }
    AddPacks(sub, ms, buf, done, target);
    buf := buf + [target];
    n := n + |target| + 1;
  }

  /** GenerateMonitor: every target is in some message, in order, and no message of several is too long. */
  method GenerateMonitor(sub: string, targets: seq<string>) returns (ms: seq<Message>)
    requires |sub| == 1 && CommaFree(targets)
    ensures forall m <- ms :: m.sub == sub && m.targets.Some? && Fits(m)
    ensures Solid(Content(ms)) == Solid(targets)
  {
    ms := [];
    var buf, n := [], 0;
    for i := 0 to |targets|
      invariant n == Cost(buf) && Packing(sub, ms, buf, targets[..i])
    {
      assert targets[i] in targets && targets[..i + 1] == targets[..i] + [targets[i]];
      ms, buf, n := PackOne(sub, ms, buf, n, targets[i], targets[..i]);
    }
    assert targets[..|targets|] == targets;
    if |buf| > 0 {
      FlushPacks(sub, ms, buf, targets);
      ms := ms + [Message(sub, Some(Join(buf, ',')))];
    }
    assert Solid(Content(ms)) + [] == Solid(Content(ms));
  }

  // ----- What the server makes of it -----

  lemma {:induction false} SolidNames(ts: seq<string>)
    ensures forall t :: t in Names(ts) <==> t in Solid(ts)
  {
    if ts != [] {
      var init, last := ts[..|ts| - 1], ts[|ts| - 1];
      SolidNames(init);
      assert ts == init + [last];
      assert forall t :: t in ts <==> t in init || t == last;
    }
  }

  lemma {:induction false} ReceiveKind(list: set<string>, sub: string, ms: seq<Message>)
    requires (sub == "-" || sub == "+") && forall m <- ms :: m.sub == sub
    ensures ReceiveAll(list, ms) == if sub == "-" then list - Names(Content(ms)) else list + Names(Content(ms))
  {
    if ms != [] {
      ReceiveKind(list, sub, ms[..|ms| - 1]);
    }
  }

  /** Packed into however many messages, the targets have the effect of one list. */
  lemma ReceivePacked(list: set<string>, sub: string, ms: seq<Message>, targets: seq<string>)
    requires (sub == "-" || sub == "+") && (forall m <- ms :: m.sub == sub) && Solid(Content(ms)) == Solid(targets)
    ensures ReceiveAll(list, ms) == if sub == "-" then list - Names(targets) else list + Names(targets)
  {
    ReceiveKind(list, sub, ms);
    SolidNames(Content(ms));
    SolidNames(targets);
  }

  // ----- The bouncer -----

  const SERVICE := "bouncerserv"

  /** The nick the user wants on the network: whether the connection has it, and whether it once got it. */
  datatype Desire = Desire(nick: string, ours: bool, held: bool)

  predicate Regaining(d: Desire) {
    !d.ours && !d.held
  }

  function All(lists: seq<seq<string>>): seq<string> {
    if lists == [] then [] else All(lists[..|lists| - 1]) + lists[|lists| - 1]
  }

  /** What the clients want monitored. */
  function Wanted(lists: seq<seq<string>>): set<string> {
    set t | t in All(lists) && t != SERVICE
  }

  /** What the update makes the list, given what it was. */
  function Target(had: set<string>, wanted: set<string>, d: Desire): set<string> {
    (wanted + if Regaining(d) && d.nick !in had then {d.nick} else {}) - {""}
  }

  /** What one client is told. */
  function Told(list: seq<string>, client: nat, targets: seq<string>): (r: seq<(nat, string)>)
    ensures forall k: nat, t :: (k, t) in r <==> k == client && t in list && t in targets
  {
    if targets == [] then []
    else (if targets[0] in list then [(client, targets[0])] else []) + Told(list, client, targets[1..])
  }

  class Upstream {
    var monitored: map<string, bool>

    constructor ()
      ensures monitored == map[]
    {
      monitored := map[];
    }

    /** The names to add, and those that stay. */
    method Survey(lists: seq<seq<string>>) returns (addList: seq<string>, seen: set<string>)
      ensures forall t :: t in addList <==> t in Wanted(lists) - monitored.Keys
      ensures seen == Wanted(lists) * monitored.Keys
    {
      var all := All(lists);
      addList, seen := [], {};
      for i := 0 to |all|
        invariant forall t :: t in addList <==> t in all[..i] && t != SERVICE && t !in monitored
        invariant forall t :: t in seen <==> t in all[..i] && t != SERVICE && t in monitored
      {
        var target := all[i];
        assert all[..i + 1] == all[..i] + [target];
        assert forall t :: t in all[..i + 1] <==> t in all[..i] || t == target;
        if target == SERVICE {
          continue;
        }
        if target !in monitored {
          if target !in addList {
            addList := addList + [target];
          }
        } else {
          seen := seen + {target};
        }
      }
      assert all[..|all|] == all;
    }

    /** The names to remove. */
    method Unwanted(seen: set<string>) returns (removeList: seq<string>, removeAll: bool)
      ensures forall t :: t in removeList <==> t in monitored.Keys - seen
      ensures removeAll <==> monitored.Keys !! seen
    {
      removeAll, removeList := true, [];
      var todo := monitored.Keys;
      while todo != {}
        invariant todo <= monitored.Keys
        invariant forall t :: t in removeList <==> t in monitored.Keys - todo - seen
        invariant removeAll <==> (monitored.Keys - todo) !! seen
      {
        var nick :| nick in todo;
        if nick in seen {
          removeAll := false;
        } else {
          removeList := removeList + [nick];
        }
        todo := todo - {nick};
      }
    }

    /**
     updateMonitor. Where the server knows MONITOR and its list is the one the bouncer believes in, the messages
     make it the target; the bouncer keeps those that stay and learns of the others from the replies.
     */
    method UpdateMonitor(supported: bool, lists: seq<seq<string>>, d: Desire) returns (ms: seq<Message>)
      requires CommaFree(All(lists)) && Free(d.nick, ',')
      requires forall t <- monitored :: t != "" && Free(t, ',')
      modifies this
      ensures !supported ==> ms == [] && monitored == old(monitored)
      ensures supported ==>
                && ReceiveAll(old(monitored).Keys, ms) == Target(old(monitored).Keys, Wanted(lists), d)
                && monitored == old(monitored) - (old(monitored).Keys - Wanted(lists))
      ensures forall m <- ms :: Fits(m)
    {
      ms := [];
      if !supported {
        return;
      }
      var addList, seen := Survey(lists);
      if d.nick !in addList && d.nick !in monitored && !d.ours && !d.held {
        addList := addList + [d.nick];
      }
      var removeList, removeAll := Unwanted(seen);
      ms := Difference(monitored.Keys, addList, removeList, removeAll);
      monitored := monitored - (set t | t in removeList);
      assert Names(removeList) == old(monitored).Keys - Wanted(lists);
    }

    /**
     RPL_MONONLINE and RPL_MONOFFLINE: the nick to regain is asked for when it is said to be offline, and every client
     is told about the names on its list.
     */
    method HandleStatus(targets: seq<string>, online: bool, d: Desire, lists: seq<seq<string>>)
      returns (regain: bool, told: seq<(nat, string)>)
      modifies this
      ensures monitored == old(monitored) + map t | t in targets :: online
      ensures regain <==> !online && !d.ours && !d.held && d.nick in targets
      ensures forall i: nat, t :: (i, t) in told <==> i < |lists| && t in lists[i] && t in targets
    {
      SetStatuses(targets, online);
      regain := false;
      if !online && !d.ours && !d.held {
        for i := 0 to |targets|
          invariant regain <==> d.nick in targets[..i]
        {
          assert targets[..i + 1] == targets[..i] + [targets[i]];
          if targets[i] == d.nick {
            regain := true;
          }
        }
        assert targets[..|targets|] == targets;
      }
      told := [];
      for i := 0 to |lists|
        invariant forall k: nat, t :: (k, t) in told <==> k < i && t in lists[k] && t in targets
      {
        told := told + Told(lists[i], i, targets);
      }
    }

    method SetStatuses(targets: seq<string>, online: bool)
      modifies this
      ensures monitored == old(monitored) + map t | t in targets :: online
    {
      for i := 0 to |targets|
        invariant monitored == old(monitored) + map t | t in targets[..i] :: online
      {
        assert targets[..i + 1] == targets[..i] + [targets[i]];
        assert forall t :: t in targets[..i + 1] <==> t in targets[..i] || t == targets[i];
        monitored := monitored[targets[i] := online];
      }
      assert targets[..|targets|] == targets;
    }

    /** An update, the server taking it in, and the server's word on every name it was given. */
    method Sync(list: set<string>, lists: seq<seq<string>>, d: Desire, online: string -> bool)
      returns (after: set<string>)
      requires list == monitored.Keys && Proper(list)
      requires CommaFree(All(lists)) && Free(d.nick, ',')
      modifies this
      ensures after == monitored.Keys == Target(list, Wanted(lists), d) && Proper(after)
    {
      var ms := UpdateMonitor(true, lists, d);
      after := ReceiveAll(list, ms);
      var todo := after - list;
      while todo != {}
        invariant todo <= after - list && monitored.Keys == after - todo
      {
        var t :| t in todo;
        var _, _ := HandleStatus([t], online(t), d, lists);
        todo := todo - {t};
      }
    }
  }

  /** Removals and additions, or one message to clear the list. */
  method Difference(ghost list: set<string>, addList: seq<string>, removeList: seq<string>, removeAll: bool)
    returns (ms: seq<Message>)
    requires CommaFree(addList) && CommaFree(removeList)
    requires "" !in list && (removeAll ==> forall t <- list :: t in removeList)
    ensures ReceiveAll(list, ms) == list - Names(removeList) + Names(addList)
    ensures forall m <- ms :: Fits(m)
  {
    if removeAll && |addList| == 0 && |removeList| > 0 {
      ms := [Message("C", None)];
      ClearRemovesAll(list, removeList);
    } else {
      var removals := GenerateMonitor("-", removeList);
      var additions := GenerateMonitor("+", addList);
      ms := removals + additions;
      ReceiveConcat(list, removals, additions);
      ReceivePacked(list, "-", removals, removeList);
      ReceivePacked(list - Names(removeList), "+", additions, addList);
    }
  }

  /** Clearing the list does what removing each of its names would. */
  lemma ClearRemovesAll(list: set<string>, removeList: seq<string>)
    requires "" !in list && forall t <- list :: t in removeList
    ensures ReceiveAll(list, [Message("C", None)]) == {} == list - Names(removeList)
  {
    assert [Message("C", None)][..0] == [];
  }

  predicate Proper(list: set<string>) {
    forall t <- list :: t != "" && Free(t, ',')
  }

  // ----- What the list becomes -----

  /** What the list ought to be: what the clients want, and the nick to regain. */
  function Ideal(wanted: set<string>, d: Desire): set<string> {
    (wanted + if Regaining(d) then {d.nick} else {}) - {""}
  }

  /** It becomes that exactly if no nick is to be regained, or a client wants it too, or it is not on the list yet. */
  lemma IdealIff(had: set<string>, wanted: set<string>, d: Desire)
    requires d.nick != ""
    ensures Target(had, wanted, d) == Ideal(wanted, d) <==> !Regaining(d) || d.nick in wanted || d.nick !in had
  {
    if Regaining(d) && d.nick !in wanted && d.nick in had {
      assert d.nick in Ideal(wanted, d) && d.nick !in Target(had, wanted, d);
    }
  }

  /** The list after so many updates in which nothing changes. */
  function Repeated(had: set<string>, wanted: set<string>, d: Desire, n: nat): set<string> {
    if n == 0 then had else Target(Repeated(had, wanted, d, n - 1), wanted, d)
  }

  /** A nick to be regained that no client wants is put on the list by every other update and taken off by the next. */
  lemma {:induction false} Oscillates(had: set<string>, wanted: set<string>, d: Desire, n: nat)
    requires Regaining(d) && d.nick != "" && d.nick !in wanted
    ensures d.nick in Repeated(had, wanted, d, n) <==> (if n % 2 == 0 then d.nick in had else d.nick !in had)
  {
    if n > 0 {
      Oscillates(had, wanted, d, n - 1);
    }
  }

  /** Any series of changes by the clients, with the nick held: the lists agree, on what the clients want. */
  method Follow(changes: seq<seq<seq<string>>>, d: Desire, online: string -> bool)
    returns (uc: Upstream, list: set<string>)
    requires !Regaining(d) && Free(d.nick, ',') && forall lists <- changes :: CommaFree(All(lists))
    ensures list == uc.monitored.Keys
    ensures changes != [] ==> list == Wanted(changes[|changes| - 1]) - {""}
  {
    uc := new Upstream();
    list := {};
    for i := 0 to |changes|
      invariant fresh(uc) && list == uc.monitored.Keys && Proper(list)
      invariant i > 0 ==> list == Wanted(changes[i - 1]) - {""}
    {
      list := uc.Sync(list, changes[i], d, online);
    }
  }
}
