/** Channel modes: applying a mode string to a channel, and printing the modes of a channel as one. */
module ChannelModes {
  import opened Text
  import opened Memberships

  /** A: lists. B: a parameter always. C: a parameter when set. D: no parameter. */
  datatype ModeType = A | B | C | D

  /** What the server announced in PREFIX and CHANMODES. */
  datatype Table = Table(ranks: Ranks, types: map<char, ModeType>)

  type Modes = map<char, string>

  /** The state applyChannelModes works on; `modes` is absent until the server has told them. */
  datatype State = State(modes: Option<Modes>, members: map<string, set<Membership>>, next: nat, sign: Option<bool>)

  datatype Outcome = Applied(state: State) | Malformed(state: State)

  // ----- Applying a mode string -----

  function RankFor(ranks: Ranks, mode: char): Option<Membership> {
    if ranks == [] then None
    else if ranks[0].mode == mode then Some(ranks[0])
    else RankFor(ranks[1..], mode)
  }

  function Change(members: map<string, set<Membership>>, who: string, m: Membership, add: bool):
    map<string, set<Membership>>
  {
    if who !in members then members
    else members[who := if add then members[who] + {m} else members[who] - {m}]
  }

  function SetMode(s: State, mode: char, value: string): State {
    if s.modes.None? then s else s.(modes := Some(s.modes.value[mode := value]))
  }

  function Unset(s: State, mode: char): State {
    if s.modes.None? then s else s.(modes := Some(s.modes.value - {mode}))
  }

  function Arg(args: seq<string>, i: nat): string {
    if i < |args| then args[i] else ""
  }

  function ApplyTyped(s: State, args: seq<string>, mode: char, mt: ModeType, add: bool): State {
    match mt
    case A => s.(next := s.next + 1)
    case B => (if add then SetMode(s, mode, Arg(args, s.next)) else Unset(s, mode)).(next := s.next + 1)
    case C => if add then SetMode(s, mode, Arg(args, s.next)).(next := s.next + 1) else Unset(s, mode)
    case D => if add then SetMode(s, mode, "") else Unset(s, mode)
  }

  function Step(t: Table, args: seq<string>, s: State, c: char): Outcome {
    if c == '+' || c == '-' then Applied(s.(sign := Some(c == '+')))
    else if s.sign.None? then Malformed(s)
    else
      match RankFor(t.ranks, c)
      case Some(m) =>
        if s.next >= |args| then Malformed(s)
        else Applied(s.(members := Change(s.members, args[s.next], m, s.sign.value), next := s.next + 1))
      case None =>
        if c !in t.types then Applied(s) else Applied(ApplyTyped(s, args, c, t.types[c], s.sign.value))
  }

  function Steps(t: Table, args: seq<string>, s: State, text: string): Outcome
    decreases text
  {
    if text == "" then Applied(s)
    else
      match Step(t, args, s, text[0])
      case Malformed(s1) => Malformed(s1)
      case Applied(s1) => Steps(t, args, s1, text[1..])
  }

  class UpstreamChannel {
    var modes: Option<Modes>
    var members: map<string, set<Membership>>

    /** applyChannelModes; changes made before an error stay. */
    method ApplyChannelModes(t: Table, modeStr: string, args: seq<string>) returns (ok: bool)
      modifies this
      ensures var r := Steps(t, args, State(old(modes), old(members), 0, None), modeStr);
              ok == r.Applied? && modes == r.state.modes && members == r.state.members
    {
      var next, sign: Option<bool> := 0, None;
      ghost var all := Steps(t, args, State(modes, members, 0, None), modeStr);
      assert modeStr[0..] == modeStr;
      for i := 0 to |modeStr|
        invariant next >= 0 && all == Steps(t, args, State(modes, members, next, sign), modeStr[i..])
      {
        var mode := modeStr[i];
        assert modeStr[i..][1..] == modeStr[i + 1..];
        if mode == '+' || mode == '-' {
          sign := Some(mode == '+');
          continue;
        }
        if sign.None? {
          return false;
        }
        var rank := RankFor(t.ranks, mode);
        if rank.Some? {
          if next >= |args| {
            return false;
          }
          members := Change(members, args[next], rank.value, sign.value);
          next := next + 1;
          continue;
        }
        if mode !in t.types {
          continue;
        }
        var s := ApplyTyped(State(modes, members, next, sign), args, mode, t.types[mode], sign.value);
        modes, next := s.modes, s.next;
      }
      ok := true;
    }
  }

  // ----- What is stored -----

  /** The letters that stand for a setting. */
  predicate Storable(t: Table, c: char) {
    c != '+' && c != '-' && RankFor(t.ranks, c).None? && c in t.types && t.types[c] != A
  }

  /** Stored modes are settings, and only those with a parameter have a value. */
  ghost predicate Sane(t: Table, modes: Modes) {
    forall c | c in modes :: Storable(t, c) && (modes[c] != "" ==> t.types[c] != D)
  }

  ghost predicate SaneState(t: Table, s: State) {
    s.modes.Some? ==> Sane(t, s.modes.value)
  }

  lemma StepSane(t: Table, args: seq<string>, s: State, c: char)
    requires SaneState(t, s)
    ensures SaneState(t, Step(t, args, s, c).state)
  {
  }

  /** Every mode string, well formed or not, leaves the stored modes sane. */
  lemma {:induction false} StepsSane(t: Table, args: seq<string>, s: State, text: string)
    requires SaneState(t, s)
    ensures SaneState(t, Steps(t, args, s, text).state)
    decreases text
  {
    if text != "" {
      StepSane(t, args, s, text[0]);
      if Step(t, args, s, text[0]).Applied? {
        StepsSane(t, args, Step(t, args, s, text[0]).state, text[1..]);
      }
    }
  }

  // ----- Printing -----

  function PrintOne(modes: Modes, c: char, valued: bool): string
    requires c in modes
  {
    if (modes[c] != "") == valued then AsRune(c) else ""
  }

  /** The modes with a value, or those without, in the given order. */
  function Print(modes: Modes, order: seq<char>, valued: bool): string
    requires forall c | c in order :: c in modes
  {
    if order == [] then "" else PrintOne(modes, order[0], valued) + Print(modes, order[1..], valued)
  }

  function ValueOne(modes: Modes, c: char): seq<string>
    requires c in modes
  {
    if modes[c] != "" then [modes[c]] else []
  }

  function Values(modes: Modes, order: seq<char>): seq<string>
    requires forall c | c in order :: c in modes
  {
    if order == [] then [] else ValueOne(modes, order[0]) + Values(modes, order[1..])
  }

  /** An order in which the entries of a map can be visited. */
  ghost predicate Visits(order: seq<char>, modes: Modes) {
    && (forall c :: c in order <==> c in modes)
    && (forall i, j | 0 <= i < j < |order| :: order[i] != order[j])
  }

  /** What was written for the first `i` modes. */
  ghost predicate Printed(modes: Modes, order: seq<char>, i: nat, withValues: string, withoutValues: string,
                          parameters: seq<string>)
  {
    && i <= |order| && (forall c | c in order :: c in modes)
    && withValues + Print(modes, order[i..], true) == Print(modes, order, true)
    && withoutValues + Print(modes, order[i..], false) == Print(modes, order, false)
    && parameters + Values(modes, order[i..]) == Values(modes, order)
  }

  lemma PrintedNext(modes: Modes, order: seq<char>, i: nat, withValues: string, withoutValues: string,
                    parameters: seq<string>)
    requires Printed(modes, order, i, withValues, withoutValues, parameters) && i < |order|
    ensures var c := order[i];
            if modes[c] != "" then
              Printed(modes, order, i + 1, withValues + AsRune(c), withoutValues, parameters + [modes[c]])
            else Printed(modes, order, i + 1, withValues, withoutValues + AsRune(c), parameters)
  {
    PrintNext(modes, order, i, true, withValues);
    PrintNext(modes, order, i, false, withoutValues);
    ValuesNext(modes, order, i, parameters);
  }

  method Format(modes: Modes, order: seq<char>) returns (modeString: string, parameters: seq<string>)
    requires Visits(order, modes)
    ensures modeString == "+" + Print(modes, order, true) + Print(modes, order, false)
    ensures parameters == Values(modes, order)
  {
    var withValues, withoutValues := "", "";
    parameters := [];
    assert order[0..] == order;
    for i := 0 to |order|
      invariant Printed(modes, order, i, withValues, withoutValues, parameters)
    {
      var mode := order[i];
      PrintedNext(modes, order, i, withValues, withoutValues, parameters);
      if modes[mode] != "" {
        withValues := withValues + AsRune(mode);
        parameters := parameters + [modes[mode]];
      } else {
        withoutValues := withoutValues + AsRune(mode);
      }
    }
    modeString := "+" + withValues + withoutValues;
  }

  lemma PrintNext(modes: Modes, order: seq<char>, i: nat, valued: bool, done: string)
    requires i < |order| && forall c | c in order :: c in modes
    ensures done + Print(modes, order[i..], valued) ==
            (if (modes[order[i]] != "") == valued then done + AsRune(order[i]) else done) +
            Print(modes, order[i + 1..], valued)
  {
    assert order[i..][0] == order[i] && order[i..][1..] == order[i + 1..];
    Assoc(done, PrintOne(modes, order[i], valued), Print(modes, order[i + 1..], valued));
    assert done + "" == done;
  }

  lemma ValuesNext(modes: Modes, order: seq<char>, i: nat, done: seq<string>)
    requires i < |order| && forall c | c in order :: c in modes
    ensures done + Values(modes, order[i..]) ==
            (if modes[order[i]] != "" then done + [modes[order[i]]] else done) + Values(modes, order[i + 1..])
  {
    assert order[i..][0] == order[i] && order[i..][1..] == order[i + 1..];
    Assoc(done, ValueOne(modes, order[i]), Values(modes, order[i + 1..]));
    assert done + [] == done;
  }

  // ----- Applying undoes printing -----

  function Continue(t: Table, args: seq<string>, o: Outcome, rest: string): Outcome {
    if o.Malformed? then o else Steps(t, args, o.state, rest)
  }

  lemma {:induction false} StepsConcat(t: Table, args: seq<string>, s: State, a: string, b: string)
    ensures Steps(t, args, s, a + b) ==
            Continue(t, args, Steps(t, args, s, a), b)
    decreases a
  {
    if a == "" {
      assert a + b == b;
    } else {
      assert (a + b)[1..] == a[1..] + b && (a + b)[0] == a[0];
      match Step(t, args, s, a[0])
      case Applied(s1) => StepsConcat(t, args, s1, a[1..], b);
      case Malformed(_) =>
    }
  }

  /** Of the settings, at most this one can have a value. */
  ghost predicate Alone(t: Table, c: char) {
    forall d | Storable(t, d) && t.types[d] != D :: d == c
  }

  /**
   The other byte of a letter's encoding does no harm: it is no mode, or it stands for a list and the argument it
   takes is none of the printed ones.
   */
  ghost predicate Harmless(t: Table, c: char, other: char)
    requires Storable(t, c)
  {
    && RankFor(t.ranks, other).None?
    && (other in t.types ==> t.types[other] == A && (t.types[c] == D || (c == '\U{C3}' && Alone(t, c))))
  }

  /** The letter is read back as itself: it is one byte, or one of the two bytes it is printed as. */
  ghost predicate Returns(t: Table, c: char)
    requires Storable(t, c)
  {
    || (c as int) < 0x80
    || ((c as int) < 0xC0 && Harmless(t, c, '\U{C2}'))
    || (c == '\U{C3}' && Harmless(t, c, '\U{83}'))
  }

  ghost predicate AllReturn(t: Table) {
    forall c | Storable(t, c) :: Returns(t, c)
  }

  /** The entries of `modes` for the given keys whose value is non-empty, or empty. */
  function Picked(modes: Modes, order: seq<char>, valued: bool): Modes
    requires forall c | c in order :: c in modes
  {
    map c | c in order && (modes[c] != "") == valued :: modes[c]
  }

  lemma PickedFirst(modes: Modes, order: seq<char>, valued: bool, m: Modes)
    requires order != [] && forall c | c in order :: c in modes
    ensures var c := order[0];
            var m1 := if (modes[c] != "") == valued then m[c := modes[c]] else m;
            m + Picked(modes, order, valued) == m1 + Picked(modes, order[1..], valued)
  {
  }

  /** One printed character, then the rest. */
  lemma StepsFirst(t: Table, args: seq<string>, s: State, c: char, rest: string)
    ensures Steps(t, args, s, [c] + rest) ==
            Continue(t, args, Step(t, args, s, c), rest)
  {
    assert ([c] + rest)[1..] == rest && ([c] + rest)[0] == c;
  }

  lemma StepValued(t: Table, modes: Modes, c: char, args: seq<string>, s: State)
    requires Sane(t, modes) && c in modes && modes[c] != ""
    requires s.modes.Some? && s.sign == Some(true) && s.next < |args| && args[s.next] == modes[c]
    ensures Step(t, args, s, c) == Applied(s.(modes := Some(s.modes.value[c := modes[c]]), next := s.next + 1))
  {
  }

  lemma StepBare(t: Table, modes: Modes, c: char, args: seq<string>, s: State)
    requires Sane(t, modes) && c in modes && modes[c] == ""
    requires s.modes.Some? && s.sign == Some(true) && s.next >= |args|
    ensures var r := Step(t, args, s, c);
            && r.Applied? && r.state.members == s.members && r.state.sign == s.sign && r.state.next >= |args|
            && r.state.modes == Some(s.modes.value[c := modes[c]])
  {
  }

  /** The arguments that are left. */
  function Left(args: seq<string>, next: nat): seq<string> {
    if next < |args| then args[next..] else []
  }

  lemma ValuesFirst(modes: Modes, order: seq<char>, args: seq<string>, next: nat)
    requires order != [] && forall c | c in order :: c in modes
    requires Left(args, next) == Values(modes, order)
    ensures var c := order[0];
            if modes[c] != "" then
              next < |args| && args[next] == modes[c] && Left(args, next + 1) == Values(modes, order[1..])
            else Left(args, next) == Values(modes, order[1..])
  {
    var c := order[0];
    if modes[c] != "" {
      assert Values(modes, order)[0] == modes[c];
      assert args[next] == args[next..][0];
      assert Left(args, next + 1) == args[next..][1..];
      assert ([modes[c]] + Values(modes, order[1..]))[1..] == Values(modes, order[1..]);
    } else {
      assert [] + Values(modes, order[1..]) == Values(modes, order[1..]);
    }
  }

  lemma {:induction false} NoValues(modes: Modes, order: seq<char>)
    requires forall c | c in order :: c in modes && modes[c] == ""
    ensures Values(modes, order) == []
  {
    if order != [] {
      NoValues(modes, order[1..]);
    }
  }

  ghost predicate Different(order: seq<char>) {
    forall i, j | 0 <= i < j < |order| :: order[i] != order[j]
  }

  /** What applying the encoding of a letter with a value does. */
  ghost predicate Sets(modes: Modes, c: char, args: seq<string>, s: State, o: Outcome)
    requires s.modes.Some? && c in modes
  {
    && o.Applied? && o.state.members == s.members && o.state.sign == s.sign
    && o.state.modes == Some(s.modes.value[c := modes[c]])
  }

  lemma TwoSteps(t: Table, args: seq<string>, s: State, a: char, b: char)
    ensures Steps(t, args, s, [a, b]) == Continue(t, args, Step(t, args, s, a), [b])
    ensures Steps(t, args, s, [b]) == Step(t, args, s, b)
  {
    StepsFirst(t, args, s, a, [b]);
    StepsFirst(t, args, s, b, "");
    assert [a] + [b] == [a, b] && [b] + "" == [b];
  }

  /** The second step after one that applies. */
  lemma PairSteps(t: Table, args: seq<string>, s: State, a: char, b: char, s1: State)
    requires Step(t, args, s, a) == Applied(s1)
    ensures Steps(t, args, s, [a, b]) == Step(t, args, s1, b)
  {
    TwoSteps(t, args, s, a, b);
    TwoSteps(t, args, s1, a, b);
  }

  /** A letter that is no mode changes nothing, and a list only uses up an argument. */
  lemma StepHarmless(t: Table, args: seq<string>, s: State, x: char)
    requires x != '+' && x != '-' && RankFor(t.ranks, x).None? && (x in t.types ==> t.types[x] == A) && s.sign.Some?
    ensures Step(t, args, s, x) == Applied(if x in t.types then s.(next := s.next + 1) else s)
  {
  }

  lemma RuneValued(t: Table, modes: Modes, c: char, args: seq<string>, s: State)
    requires Sane(t, modes) && c in modes && modes[c] != "" && Returns(t, c)
    requires s.modes.Some? && s.sign == Some(true) && s.next < |args| && args[s.next] == modes[c]
    ensures var r := Steps(t, args, s, AsRune(c));
            && Sets(modes, c, args, s, r)
            && (r.state.next == s.next + 1 || (r.state.next == s.next + 2 && Alone(t, c)))
  {
    if (c as int) < 0x80 {
      TwoSteps(t, args, s, c, c);
      StepValued(t, modes, c, args, s);
    } else if (c as int) < 0xC0 {
      TwoSteps(t, args, s, '\U{C2}', c);
      StepHarmless(t, args, s, '\U{C2}');
      StepValued(t, modes, c, args, s);
    } else {
      StepValued(t, modes, c, args, s);
      TwoSteps(t, args, s, c, '\U{83}');
      var s1 := Step(t, args, s, c).state;
      TwoSteps(t, args, s1, c, '\U{83}');
      StepHarmless(t, args, s1, '\U{83}');
    }
  }

  lemma BehindOther(t: Table, modes: Modes, c: char, args: seq<string>, s: State)
    requires Sane(t, modes) && c in modes && modes[c] == "" && '\U{80}' <= c < '\U{C0}' && Harmless(t, c, '\U{C2}')
    requires s.modes.Some? && s.sign == Some(true) && s.next >= |args|
    ensures var r := Steps(t, args, s, AsRune(c));
            Sets(modes, c, args, s, r) && r.state.next >= |args|
  {
    var s1 := if '\U{C2}' in t.types then s.(next := s.next + 1) else s;
    StepHarmless(t, args, s, '\U{C2}');
    PairSteps(t, args, s, '\U{C2}', c, s1);
    StepBare(t, modes, c, args, s1);
  }

  lemma BeforeOther(t: Table, modes: Modes, c: char, args: seq<string>, s: State)
    requires Sane(t, modes) && c in modes && modes[c] == "" && c == '\U{C3}' && Harmless(t, c, '\U{83}')
    requires s.modes.Some? && s.sign == Some(true) && s.next >= |args|
    ensures var r := Steps(t, args, s, AsRune(c));
            Sets(modes, c, args, s, r) && r.state.next >= |args|
  {
    StepBare(t, modes, c, args, s);
    var s1 := Step(t, args, s, c).state;
    PairSteps(t, args, s, c, '\U{83}', s1);
    StepHarmless(t, args, s1, '\U{83}');
  }

  lemma RuneBare(t: Table, modes: Modes, c: char, args: seq<string>, s: State)
    requires Sane(t, modes) && c in modes && modes[c] == "" && Returns(t, c)
    requires s.modes.Some? && s.sign == Some(true) && s.next >= |args|
    ensures var r := Steps(t, args, s, AsRune(c));
            Sets(modes, c, args, s, r) && r.state.next >= |args|
  {
    if (c as int) < 0x80 {
      TwoSteps(t, args, s, c, c);
      StepBare(t, modes, c, args, s);
    } else if (c as int) < 0xC0 {
      BehindOther(t, modes, c, args, s);
    } else {
      BeforeOther(t, modes, c, args, s);
    }
  }

  /** After the argument of the only letter with a value none is left. */
  lemma NoneLeft(t: Table, modes: Modes, order: seq<char>)
    requires Sane(t, modes) && Different(order) && (forall c | c in order :: c in modes)
    requires order != [] && Alone(t, order[0])
    ensures Values(modes, order[1..]) == []
  {
    forall c | c in order[1..] ensures modes[c] == "" {
      var i :| 0 <= i < |order[1..]| && order[1..][i] == c;
      assert order[0] != order[i + 1];
    }
    NoValues(modes, order[1..]);
  }

  ghost predicate Restored(modes: Modes, order: seq<char>, valued: bool, args: seq<string>, s: State, r: Outcome)
    requires s.modes.Some? && forall c | c in order :: c in modes
  {
    && r.Applied? && r.state.members == s.members && r.state.sign == s.sign && r.state.next >= |args|
    && r.state.modes == Some(s.modes.value + Picked(modes, order, valued))
  }

  /** The first letter with a value leaves the arguments of the others. */
  lemma ValuedFirst(t: Table, modes: Modes, order: seq<char>, args: seq<string>, s: State)
    requires Sane(t, modes) && Different(order) && (forall c | c in order :: c in modes)
    requires order != [] && Returns(t, order[0]) && modes[order[0]] != ""
    requires s.modes.Some? && s.sign == Some(true) && Left(args, s.next) == Values(modes, order)
    ensures var r := Steps(t, args, s, AsRune(order[0]));
            Sets(modes, order[0], args, s, r) && Left(args, r.state.next) == Values(modes, order[1..])
  {
    ValuesFirst(modes, order, args, s.next);
    RuneValued(t, modes, order[0], args, s);
    if Steps(t, args, s, AsRune(order[0])).state.next == s.next + 2 {
      NoneLeft(t, modes, order);
    }
  }

  /** Setting the modes that have a value takes one argument each. */
  lemma {:induction false} ApplyValued(t: Table, modes: Modes, order: seq<char>, args: seq<string>, s: State)
    requires AllReturn(t) && Sane(t, modes) && Different(order) && (forall c | c in order :: c in modes)
    requires s.modes.Some? && s.sign == Some(true) && Left(args, s.next) == Values(modes, order)
    ensures Restored(modes, order, true, args, s, Steps(t, args, s, Print(modes, order, true)))
    decreases order
  {
    if order == [] {
      assert s.modes.value + map[] == s.modes.value;
    } else {
      var c, rest := order[0], Print(modes, order[1..], true);
      PickedFirst(modes, order, true, s.modes.value);
      if modes[c] != "" {
        ValuedFirst(t, modes, order, args, s);
        StepsConcat(t, args, s, AsRune(c), rest);
        ApplyValued(t, modes, order[1..], args, Steps(t, args, s, AsRune(c)).state);
      } else {
        ValuesFirst(modes, order, args, s.next);
        ApplyValued(t, modes, order[1..], args, s);
        assert "" + rest == rest;
      }
    }
  }

  /** Setting the modes without a value finds no argument left, whatever their type. */
  lemma {:induction false} ApplyBare(t: Table, modes: Modes, order: seq<char>, args: seq<string>, s: State)
    requires AllReturn(t) && Sane(t, modes) && (forall c | c in order :: c in modes)
    requires s.modes.Some? && s.sign == Some(true) && s.next >= |args|
    ensures Restored(modes, order, false, args, s, Steps(t, args, s, Print(modes, order, false)))
    decreases order
  {
    if order == [] {
      assert s.modes.value + map[] == s.modes.value;
    } else {
      var c, rest := order[0], Print(modes, order[1..], false);
      PickedFirst(modes, order, false, s.modes.value);
      if modes[c] == "" {
        RuneBare(t, modes, c, args, s);
        StepsConcat(t, args, s, AsRune(c), rest);
        ApplyBare(t, modes, order[1..], args, Steps(t, args, s, AsRune(c)).state);
      } else {
        ApplyBare(t, modes, order[1..], args, s);
        assert "" + rest == rest;
      }
    }
  }

  lemma PickedAll(modes: Modes, order: seq<char>)
    requires Visits(order, modes)
    ensures map[] + Picked(modes, order, true) + Picked(modes, order, false) == modes
  {
  }

  /** Applying the printed modes to a channel without any. */
  function Reread(t: Table, modes: Modes, order: seq<char>, members: map<string, set<Membership>>): Outcome
    requires forall c | c in order :: c in modes
  {
    var text := "+" + Print(modes, order, true) + Print(modes, order, false);
    Steps(t, Values(modes, order), State(Some(map[]), members, 0, None), text)
  }

  /** That brings them all back and touches no member. */
  ghost predicate ComesBack(t: Table, modes: Modes, order: seq<char>, members: map<string, set<Membership>>)
    requires forall c | c in order :: c in modes
  {
    var r := Reread(t, modes, order, members);
    r.Applied? && r.state.modes == Some(modes) && r.state.members == members
  }

  lemma RereadSteps(t: Table, modes: Modes, order: seq<char>, members: map<string, set<Membership>>)
    requires forall c | c in order :: c in modes
    ensures var args, valued := Values(modes, order), Print(modes, order, true);
            var s := State(Some(map[]), members, 0, Some(true));
            Reread(t, modes, order, members) == Continue(t, args, Steps(t, args, s, valued), Print(modes, order, false))
  {
    var args := Values(modes, order);
    var valued, bare := Print(modes, order, true), Print(modes, order, false);
    var s := State(Some(map[]), members, 0, Some(true));
    Assoc("+", valued, bare);
    StepsFirst(t, args, s.(sign := None), '+', valued + bare);
    StepsConcat(t, args, s, valued, bare);
  }

  lemma RoundTrip(t: Table, modes: Modes, order: seq<char>, members: map<string, set<Membership>>)
    requires AllReturn(t) && Sane(t, modes) && Visits(order, modes)
    ensures ComesBack(t, modes, order, members)
  {
    var args, s := Values(modes, order), State(Some(map[]), members, 0, Some(true));
    RereadSteps(t, modes, order, members);
    assert args[0..] == args;
    ApplyValued(t, modes, order, args, s);
    ApplyBare(t, modes, order, args, Steps(t, args, s, Print(modes, order, true)).state);
    PickedAll(modes, order);
  }

  // ----- Letters that do not come back -----

  /** The printed form of a single mode. */
  lemma RereadOne(t: Table, c: char, value: string, members: map<string, set<Membership>>)
    ensures var args := if value != "" then [value] else [];
            var s := State(Some(map[]), members, 0, Some(true));
            Reread(t, map[c := value], [c], members) == Steps(t, args, s, AsRune(c))
  {
    var modes := map[c := value];
    RereadSteps(t, modes, [c], members);
    assert [c][1..] == [];
    assert AsRune(c) + "" == AsRune(c) && "" + "" == "";
    assert [value] + [] == [value];
  }

  /** A step sets no other mode than its letter. */
  lemma StepOther(t: Table, args: seq<string>, s: State, x: char, c: char)
    requires x != c && s.modes.Some?
    ensures var r := Step(t, args, s, x).state;
            r.modes.Some? && (c in r.modes.value <==> c in s.modes.value)
  {
  }

  /** A letter that is neither of the bytes it is printed as is lost. */
  lemma NotPrinted(t: Table, c: char, members: map<string, set<Membership>>)
    requires (c as int) >= 0xC0 && c != '\U{C3}'
    ensures !ComesBack(t, map[c := ""], [c], members)
  {
    var s, a, b := State(Some(map[]), members, 0, Some(true)), AsRune(c)[0], AsRune(c)[1];
    RereadOne(t, c, "", members);
    assert AsRune(c) == [a, b];
    TwoSteps(t, [], s, a, b);
    StepOther(t, [], s, a, c);
    var s1 := Step(t, [], s, a).state;
    TwoSteps(t, [], s1, a, b);
    StepOther(t, [], s1, b, c);
    var r := Reread(t, map[c := ""], [c], members);
    if r.Applied? {
      assert c !in r.state.modes.value;
    }
  }

  /** The two bytes of a letter that is one of them. */
  ghost predicate Bytes(c: char, a: char, b: char) {
    || ('\U{80}' <= c < '\U{C0}' && a == '\U{C2}' && b == c)
    || (c == '\U{C3}' && a == c && b == '\U{83}')
  }

  function Other(c: char, a: char, b: char): char {
    if a == c then b else a
  }

  /** A letter that stands for a membership finds no argument, and one that stands for a setting sets it. */
  predicate Acts(t: Table, x: char) {
    x != '+' && x != '-' && (RankFor(t.ranks, x).Some? || (x in t.types && t.types[x] != A))
  }

  lemma StepActs(t: Table, s: State, x: char)
    requires Acts(t, x) && s.modes.Some? && s.sign == Some(true)
    ensures var o := Step(t, [], s, x);
            o.Applied? ==> o.state.modes.Some? && x in o.state.modes.value && o.state.sign == s.sign
  {
  }

  lemma StepKeepsSign(t: Table, args: seq<string>, s: State, x: char)
    requires x != '+' && x != '-' && s.modes.Some?
    ensures var o := Step(t, args, s, x); o.state.sign == s.sign && o.state.modes.Some?
  {
  }

  lemma OtherActs(t: Table, c: char, a: char, b: char, members: map<string, set<Membership>>)
    requires Storable(t, c) && Bytes(c, a, b) && Acts(t, Other(c, a, b))
    ensures !ComesBack(t, map[c := ""], [c], members)
  {
    var s, x := State(Some(map[]), members, 0, Some(true)), Other(c, a, b);
    RereadOne(t, c, "", members);
    TwoSteps(t, [], s, a, b);
    var o := Step(t, [], s, a);
    if o.Applied? {
      StepKeepsSign(t, [], s, a);
      PairSteps(t, [], s, a, b, o.state);
      if a == x {
        StepActs(t, s, a);
        StepOther(t, [], o.state, b, a);
      } else {
        StepActs(t, o.state, b);
      }
    }
    var r := Reread(t, map[c := ""], [c], members);
    assert r.Applied? ==> x in r.state.modes.value;
  }

  /** A list in front of the letter takes its argument. */
  lemma OtherTakes(t: Table, c: char, members: map<string, set<Membership>>)
    requires Storable(t, c) && t.types[c] != D && '\U{80}' <= c < '\U{C0}'
    requires RankFor(t.ranks, '\U{C2}').None? && '\U{C2}' in t.types && t.types['\U{C2}'] == A
    ensures !ComesBack(t, map[c := "v"], [c], members)
  {
    var s := State(Some(map[]), members, 0, Some(true));
    RereadOne(t, c, "v", members);
    TwoSteps(t, ["v"], s, '\U{C2}', c);
    var s1 := Step(t, ["v"], s, '\U{C2}').state;
    TwoSteps(t, ["v"], s1, '\U{C2}', c);
    assert Steps(t, ["v"], s, AsRune(c)).state.modes.value[c] == "";
  }

  /** Once the arguments are used up, no mode gets a value. */
  lemma {:induction false} UsedUp(t: Table, args: seq<string>, s: State, text: string, d: char)
    requires s.modes.Some? && s.next >= |args| && (d in s.modes.value ==> s.modes.value[d] == "")
    ensures var r := Steps(t, args, s, text).state;
            r.modes.Some? && (d in r.modes.value ==> r.modes.value[d] == "")
    decreases text
  {
    if text != "" && Step(t, args, s, text[0]).Applied? {
      UsedUp(t, args, Step(t, args, s, text[0]).state, text[1..], d);
    }
  }

  /** A list behind the letter takes the argument of the next one. */
  lemma OtherTakesNext(t: Table, d: char, members: map<string, set<Membership>>)
    requires var c := '\U{C3}'; Storable(t, c) && t.types[c] != D && Storable(t, d) && d != c
    requires RankFor(t.ranks, '\U{83}').None? && '\U{83}' in t.types && t.types['\U{83}'] == A
    ensures !ComesBack(t, map['\U{C3}' := "v", d := "w"], ['\U{C3}', d], members)
  {
    var c := '\U{C3}';
    var modes, order := map[c := "v", d := "w"], [c, d];
    var s, args := State(Some(map[]), members, 0, Some(true)), ["v", "w"];
    RereadSteps(t, modes, order, members);
    assert order[1..] == [d] && [d][1..] == [];
    assert Values(modes, order) == args by {
      assert modes[c] == "v" && Values(modes, [d]) == ["w"] + [];
      assert ["v"] + ["w"] == args;
    }
    var rest, bare := Print(modes, [d], true), Print(modes, order, false);
    StepsConcat(t, args, s, AsRune(c), rest);
    TwoSteps(t, args, s, c, '\U{83}');
    var s1 := Step(t, args, s, c).state;
    TwoSteps(t, args, s1, c, '\U{83}');
    StepHarmless(t, args, s1, '\U{83}');
    var s2 := Steps(t, args, s, AsRune(c)).state;
    StepsConcat(t, args, s2, rest, bare);
    UsedUp(t, args, s2, rest + bare, d);
  }

  /** A letter that does not return is lost from some map. */
  lemma LetterLost(t: Table, c: char) returns (modes: Modes, order: seq<char>)
    requires Storable(t, c) && !Returns(t, c)
    ensures Sane(t, modes) && Visits(order, modes) && !ComesBack(t, modes, order, map[])
  {
    modes, order := map[c := ""], [c];
    var a, b := if c == '\U{C3}' then c else '\U{C2}', if c == '\U{C3}' then '\U{83}' else c;
    if (c as int) >= 0xC0 && c != '\U{C3}' {
      NotPrinted(t, c, map[]);
    } else if Acts(t, Other(c, a, b)) {
      OtherActs(t, c, a, b, map[]);
    } else if c != '\U{C3}' {
      modes := map[c := "v"];
      OtherTakes(t, c, map[]);
    } else {
      var d :| Storable(t, d) && t.types[d] != D && d != c;
      modes, order := map[c := "v", d := "w"], [c, d];
      OtherTakesNext(t, d, map[]);
    }
  }

  /** Every map of modes a server can have comes back, in whatever order it is printed. */
  ghost predicate AllComeBack(t: Table) {
    forall modes, order, members | Sane(t, modes) && Visits(order, modes) :: ComesBack(t, modes, order, members)
  }

  /** Printed modes come back for a table exactly if all its letters do. */
  lemma RoundTripIff(t: Table)
    ensures AllComeBack(t) <==> AllReturn(t)
  {
    if AllReturn(t) {
      forall modes, order, members | Sane(t, modes) && Visits(order, modes)
        ensures ComesBack(t, modes, order, members)
      {
        RoundTrip(t, modes, order, members);
      }
    } else {
      var c :| Storable(t, c) && !Returns(t, c);
      var modes, order := LetterLost(t, c);
    }
  }

  /** A setting with the letter E9 is lost from every channel that has no other one. */
  lemma AccentLost(t: Table, members: map<string, set<Membership>>)
    requires Storable(t, '\U{E9}')
    ensures Sane(t, map['\U{E9}' := ""]) && !ComesBack(t, map['\U{E9}' := ""], ['\U{E9}'], members)
  {
    NotPrinted(t, '\U{E9}', members);
  }

  /** How many of the modes take a parameter even when they are unset. */
  function Parameterised(t: Table, order: seq<char>): nat
    requires forall c | c in order :: c in t.types
  {
    if order == [] then 0 else (if t.types[order[0]] == B then 1 else 0) + Parameterised(t, order[1..])
  }

  /** Unsetting modes removes exactly those, taking an argument only for the ones that always have one. */
  lemma {:induction false} UnsetModes(t: Table, modes: Modes, order: string, args: seq<string>, s: State)
    requires Sane(t, modes) && (forall c | c in order :: c in modes)
    requires s.modes.Some? && s.sign == Some(false)
    ensures Steps(t, args, s, order) ==
            Applied(s.(modes := Some(s.modes.value - (set c | c in order)), next := s.next + Parameterised(t, order)))
    decreases order
  {
    if order == "" {
      assert (set c | c in order) == {};
      assert s.modes.value - (set c | c in order) == s.modes.value;
    } else {
      var s1 := Step(t, args, s, order[0]).state;
      assert s1 == s.(modes := Some(s.modes.value - {order[0]}),
                      next := s.next + if t.types[order[0]] == B then 1 else 0);
      UnsetModes(t, modes, order[1..], args, s1);
      assert s.modes.value - {order[0]} - (set c | c in order[1..]) == s.modes.value - (set c | c in order);
    }
  }
}
