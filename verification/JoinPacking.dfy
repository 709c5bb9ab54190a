/**
 JOIN packing: channels and their keys are packed into as few JOIN messages as the line length allows,
 and the receiver pairs the names and keys of each message up again by position.
 */
module JoinPacking {
  import opened Sorting
  import opened Text

  datatype Entry = Entry(channel: string, key: string)

  /** The parameters of one JOIN message. */
  datatype Message = Message(names: string, keys: Option<string>)

  const MAX_MESSAGE := 512

  // ----- Order: channels with a key first, then by name -----

  predicate Less(a: Entry, b: Entry) {
    if (a.key != "") != (b.key != "") then a.key != "" else NameLess(a.channel, b.channel)
  }

  ghost predicate InOrder(es: seq<Entry>) {
    Sorted(es, Less)
  }

  lemma LessOrder()
    ensures WeakOrder(Less)
  {
    forall a: Entry, b: Entry, c: Entry
      ensures Less(a, b) ==> !Less(b, a)
      ensures !Less(b, a) && !Less(c, b) ==> !Less(c, a)
    {
      NameLessOrder(a.channel, b.channel, c.channel);
    }
  }

  // ----- Packing -----

  function Names(es: seq<Entry>): seq<string> {
    seq(|es|, i requires 0 <= i < |es| => es[i].channel)
  }

  /** The keys of the channels that have one. */
  function Keys(es: seq<Entry>): seq<string> {
    if es == [] then []
    else
      var init, e := Keys(es[..|es| - 1]), es[|es| - 1];
      if e.key != "" then init + [e.key] else init
  }

  function Render(es: seq<Entry>): Message {
    var keys := Join(Keys(es), ',');
    Message(Join(Names(es), ','), if keys != "" then Some(keys) else None)
  }

  /** The message as words separated by single spaces. */
  function Length(m: Message): nat {
    |"JOIN"| + 1 + |m.names| + match m.keys case None => 0 case Some(k) => 1 + |k|
  }

  function Flatten(groups: seq<seq<Entry>>): seq<Entry> {
    if groups == [] then [] else Flatten(groups[..|groups| - 1]) + groups[|groups| - 1]
  }

  /** A channel name is never empty. */
  ghost predicate Named(es: seq<Entry>) {
    forall i | 0 <= i < |es| :: es[i].channel != ""
  }

  /** Each message carries one non-empty group, and only a lone channel may exceed the line length. */
  ghost predicate Packed(msgs: seq<Message>, groups: seq<seq<Entry>>) {
    && |msgs| == |groups|
    && forall i | 0 <= i < |groups| ::
         && groups[i] != [] && msgs[i] == Render(groups[i])
         && (|groups[i]| > 1 ==> Length(msgs[i]) <= MAX_MESSAGE)
  }

  /** The room the parameters take with one more entry, as it is counted. */
  function Needs(es: seq<Entry>, e: Entry): nat {
    |Join(Names(es), ',')| + |Join(Keys(es), ',')| + 1 + |e.channel| + if e.key != "" then 1 + |e.key| else 0
  }

  /** The last of these groups could not have taken in the first entry of the next one as well. */
  predicate FullBefore(groups: seq<seq<Entry>>, next: seq<Entry>) {
    groups != [] && next != [] ==> Needs(groups[|groups| - 1], next[0]) > MAX_PARAMS
  }

  /** No group could have taken in the first entry of the next one. */
  predicate Full(groups: seq<seq<Entry>>) {
    groups == [] || (Full(groups[..|groups| - 1]) && FullBefore(groups[..|groups| - 1], groups[|groups| - 1]))
  }

  lemma NamesSnoc(es: seq<Entry>, e: Entry)
    ensures Names(es + [e]) == Names(es) + [e.channel]
    ensures Keys(es + [e]) == Keys(es) + if e.key != "" then [e.key] else []
  {
    assert (es + [e])[..|es|] == es;
  }

  lemma {:induction false} KeysNonEmpty(es: seq<Entry>)
    ensures forall k | k in Keys(es) :: k != ""
  {
    if es != [] {
      KeysNonEmpty(es[..|es| - 1]);
    }
  }

  lemma JoinEmpty(parts: seq<string>)
    requires forall p | p in parts :: p != ""
    ensures Join(parts, ',') == "" <==> parts == []
  {
    if parts != [] {
      assert parts[0] in parts;
    }
  }

  lemma Buffers(es: seq<Entry>)
    requires Named(es)
    ensures |Join(Names(es), ',')| > 0 <==> es != []
    ensures |Join(Keys(es), ',')| > 0 <==> Keys(es) != []
  {
    KeysNonEmpty(es);
    JoinEmpty(Names(es));
    JoinEmpty(Keys(es));
  }

  const MAX_PARAMS := MAX_MESSAGE - (|"JOIN"| + 2)

  /** The messages so far carry `groups` and the buffers carry `cur`; together they are the entries done. */
  ghost predicate Buffered(msgs: seq<Message>, channels: string, keys: string,
                           groups: seq<seq<Entry>>, cur: seq<Entry>, done: seq<Entry>)
  {
    && Flatten(groups) + cur == done
    && Packed(msgs, groups) && Full(groups) && FullBefore(groups, cur)
    && channels == Join(Names(cur), ',') && keys == Join(Keys(cur), ',')
    && Named(cur) && (|cur| > 1 ==> |channels| + |keys| <= MAX_PARAMS)
  }

  method GenerateJoin(es: seq<Entry>) returns (msgs: seq<Message>, ghost groups: seq<seq<Entry>>)
    requires Named(es)
    ensures Packed(msgs, groups) && Full(groups)
    ensures InOrder(Flatten(groups)) && multiset(Flatten(groups)) == multiset(es)
    ensures Listable(es) ==> multiset(ParseAll(msgs)) == multiset(es)
    ensures Listable(es) ==> forall m <- msgs :: Length(m) <= MAX_MESSAGE || Free(m.names, ',')
  {
    LessOrder();
    var sorted := Sort(es, Less);
    NamedSame(es, sorted);
    msgs, groups := [], [];
    var channelsBuf, keysBuf := "", "";
    ghost var cur: seq<Entry> := [];
    for i := 0 to |sorted|
      invariant Buffered(msgs, channelsBuf, keysBuf, groups, cur, sorted[..i]) && (cur == [] ==> groups == [])
    {
      assert sorted[..i + 1] == sorted[..i] + [sorted[i]];
      msgs, channelsBuf, keysBuf, groups, cur :=
        PackOne(msgs, channelsBuf, keysBuf, sorted[i], groups, cur, sorted[..i]);
    }
    assert sorted[..|sorted|] == sorted;
    msgs, groups := Finish(msgs, channelsBuf, keysBuf, groups, cur, sorted);
    if Listable(es) {
      PairingPreserved(es, msgs, groups);
      LoneOrShort(es, msgs, groups);
    }
  }

  /** After the loop: the last message. */
  method Finish(msgs: seq<Message>, channels: string, keys: string,
                ghost groups: seq<seq<Entry>>, ghost cur: seq<Entry>, ghost done: seq<Entry>)
    returns (msgs': seq<Message>, ghost groups': seq<seq<Entry>>)
    requires Buffered(msgs, channels, keys, groups, cur, done)
    ensures Packed(msgs', groups') && Full(groups') && Flatten(groups') == done
  {
    Buffers(cur);
    msgs', groups' := msgs, groups;
    if |channels| > 0 {
      msgs' := Flush(msgs, channels, keys, groups, cur);
      FlattenSnoc(groups, cur);
      FullSnoc(groups, cur);
      groups' := groups + [cur];
    } else {
      assert Flatten(groups) + [] == Flatten(groups);
    }
  }

  /** The body of the loop: start a new message if there is no room, then write the entry. */
  method PackOne(msgs: seq<Message>, channels: string, keys: string, e: Entry,
                 ghost groups: seq<seq<Entry>>, ghost cur: seq<Entry>, ghost done: seq<Entry>)
    returns (msgs': seq<Message>, channels': string, keys': string, ghost groups': seq<seq<Entry>>,
             ghost cur': seq<Entry>)
    requires Buffered(msgs, channels, keys, groups, cur, done) && e.channel != "" && (cur == [] ==> groups == [])
    ensures Buffered(msgs', channels', keys', groups', cur', done + [e]) && cur' != []
  {
    var n := |channels| + |keys| + 1 + |e.channel|;
    if e.key != "" {
      n := n + 1 + |e.key|;
    }
    msgs', channels', keys', groups', cur' := msgs, channels, keys, groups, cur;
    Buffers(cur);
    if |channels| > 0 && n > MAX_PARAMS {
      msgs' := Flush(msgs, channels, keys, groups, cur);
      FlushedBuffers(msgs', groups, cur, done);
      channels', keys', groups', cur' := "", "", groups + [cur], [];
    }
    ghost var before, keysBefore := channels', keys';
    channels', keys' := WriteEntry(channels', keys', e, cur');
    ExtendBuffers(msgs', before, keysBefore, groups', cur', done, e, channels', keys');
    cur' := cur' + [e];
  }

  lemma ExtendBuffers(msgs: seq<Message>, channels: string, keys: string, groups: seq<seq<Entry>>, cur: seq<Entry>,
                      done: seq<Entry>, e: Entry, channels': string, keys': string)
    requires Buffered(msgs, channels, keys, groups, cur, done) && e.channel != ""
    requires channels' == Join(Names(cur + [e]), ',') && keys' == Join(Keys(cur + [e]), ',')
    requires channels != "" ==> |channels'| + |keys'| <= MAX_PARAMS
    requires cur == [] ==> FullBefore(groups, [e])
    ensures Buffered(msgs, channels', keys', groups, cur + [e], done + [e])
  {
    Buffers(cur);
    assert FullBefore(groups, cur + [e]) by {
      assert (cur + [e])[0] == if cur == [] then e else cur[0];
    }
    Assoc(Flatten(groups), cur, [e]);
  }

  lemma FlushedBuffers(msgs: seq<Message>, groups: seq<seq<Entry>>, cur: seq<Entry>, done: seq<Entry>)
    requires Packed(msgs, groups + [cur]) && Flatten(groups) + cur == done && Full(groups) && FullBefore(groups, cur)
    ensures Buffered(msgs, "", "", groups + [cur], [], done)
  {
    FlattenSnoc(groups, cur);
    FullSnoc(groups, cur);
    assert done + [] == done;
  }

  lemma FullSnoc(groups: seq<seq<Entry>>, cur: seq<Entry>)
    requires Full(groups) && FullBefore(groups, cur)
    ensures Full(groups + [cur])
  {
    assert (groups + [cur])[..|groups|] == groups;
  }

  /** Write one more channel, and its key if it has one, to the buffers. */
  method WriteEntry(channels: string, keys: string, e: Entry, ghost cur: seq<Entry>)
    returns (channels': string, keys': string)
    requires Named(cur) && channels == Join(Names(cur), ',') && keys == Join(Keys(cur), ',')
    ensures channels' == Join(Names(cur + [e]), ',') && keys' == Join(Keys(cur + [e]), ',')
    ensures |channels'| <= |channels| + 1 + |e.channel|
    ensures |keys'| <= |keys| + if e.key != "" then 1 + |e.key| else 0
  {
    NamesSnoc(cur, e);
    Buffers(cur);
    JoinSnoc(Names(cur), e.channel, ',');
    JoinSnoc(Keys(cur), e.key, ',');
    channels', keys' := channels, keys;
    if |channels'| > 0 {
      channels' := channels' + ",";
    }
    channels' := channels' + e.channel;
    if e.key != "" {
      if |keys'| > 0 {
        keys' := keys' + ",";
      }
      keys' := keys' + e.key;
    }
  }

  /** Append the message for what is in the buffers. */
  method Flush(msgs: seq<Message>, channels: string, keys: string, ghost groups: seq<seq<Entry>>, ghost cur: seq<Entry>)
    returns (msgs': seq<Message>)
    requires Packed(msgs, groups) && channels != ""
    requires channels == Join(Names(cur), ',') && keys == Join(Keys(cur), ',')
    requires |cur| > 1 ==> |channels| + |keys| <= MAX_PARAMS
    ensures Packed(msgs', groups + [cur])
  {
    msgs' := msgs + [Message(channels, if |keys| > 0 then Some(keys) else None)];
  }

  lemma FlattenSnoc(groups: seq<seq<Entry>>, g: seq<Entry>)
    ensures Flatten(groups + [g]) == Flatten(groups) + g
  {
    assert (groups + [g])[..|groups|] == groups;
  }

  lemma NamedSame(a: seq<Entry>, b: seq<Entry>)
    requires Named(a) && multiset(a) == multiset(b)
    ensures Named(b)
  {
    forall i | 0 <= i < |b| ensures b[i].channel != "" {
      assert b[i] in multiset(a);
    }
  }

  // ----- Pairing up again -----

  /** The JOIN handler's rule: the i-th name has the i-th key, if there is one. */
  function Parse(m: Message): seq<Entry> {
    var names := Split(m.names, ',');
    var keys := match m.keys case None => [] case Some(k) => Split(k, ',');
    seq(|names|, i requires 0 <= i < |names| => Entry(names[i], if i < |keys| then keys[i] else ""))
  }

  /** Names and keys as they can stand in a comma-separated list. */
  ghost predicate Listable(es: seq<Entry>) {
    forall i | 0 <= i < |es| :: es[i].channel != "" && Free(es[i].channel, ',') && Free(es[i].key, ',')
  }

  ghost predicate KeyedFirst(es: seq<Entry>) {
    forall i, j | 0 <= i < j < |es| && es[j].key != "" :: es[i].key != ""
  }

  /** With keyed channels first, the i-th key belongs to the i-th channel. */
  lemma {:induction false} KeysAligned(es: seq<Entry>)
    requires KeyedFirst(es)
    ensures |Keys(es)| <= |es|
    ensures forall i | 0 <= i < |es| :: es[i].key == if i < |Keys(es)| then Keys(es)[i] else ""
  {
    if es != [] {
      var n := |es| - 1;
      KeysAligned(es[..n]);
      if es[n].key != "" {
        KeysAll(es[..n]);
      }
    }
  }

  lemma {:induction false} KeysAll(es: seq<Entry>)
    requires forall i | 0 <= i < |es| :: es[i].key != ""
    ensures |Keys(es)| == |es|
  {
    if es != [] {
      KeysAll(es[..|es| - 1]);
    }
  }

  lemma {:induction false} KeysFree(es: seq<Entry>)
    requires Listable(es)
    ensures forall k | k in Keys(es) :: Free(k, ',')
  {
    if es != [] {
      KeysFree(es[..|es| - 1]);
    }
  }

  lemma ParseRender(es: seq<Entry>)
    requires es != [] && Listable(es) && KeyedFirst(es)
    ensures Parse(Render(es)) == es
  {
    SplitJoin(Names(es), ',');
    KeysAligned(es);
    KeysFree(es);
    KeysNonEmpty(es);
    JoinEmpty(Keys(es));
    if Keys(es) != [] {
      SplitJoin(Keys(es), ',');
    }
  }

  /** Any contiguous part of a sorted list has its keyed channels first. */
  lemma SortedKeyedFirst(a: seq<Entry>, b: seq<Entry>, c: seq<Entry>)
    requires InOrder(a + b + c)
    ensures KeyedFirst(b) && InOrder(a + b)
  {
    var s := a + b + c;
    forall i, j | 0 <= i < j < |b| && b[j].key != "" ensures b[i].key != "" {
      assert s[|a| + i] == b[i] && s[|a| + j] == b[j];
    }
    forall i, j | 0 <= i < j < |a + b| ensures !Less((a + b)[j], (a + b)[i]) {
      assert s[i] == (a + b)[i] && s[j] == (a + b)[j];
    }
  }

  function ParseAll(msgs: seq<Message>): seq<Entry> {
    if msgs == [] then [] else ParseAll(msgs[..|msgs| - 1]) + Parse(msgs[|msgs| - 1])
  }

  lemma {:induction false} ParseGroups(msgs: seq<Message>, groups: seq<seq<Entry>>)
    requires Packed(msgs, groups) && InOrder(Flatten(groups)) && Listable(Flatten(groups))
    ensures ParseAll(msgs) == Flatten(groups)
    decreases |groups|
  {
    if groups != [] {
      var n := |groups| - 1;
      var init, last := Flatten(groups[..n]), groups[n];
      assert init + last == Flatten(groups) && init + last + [] == init + last;
      SortedKeyedFirst(init, last, []);
      assert [] + init + last == init + last;
      SortedKeyedFirst([], init, last);
      assert [] + init == init;
      assert forall i | 0 <= i < |init| :: init[i] == (init + last)[i];
      assert forall i | 0 <= i < |last| :: last[i] == (init + last)[|init| + i];
      ParseRender(last);
      ParseGroups(msgs[..n], groups[..n]);
    }
  }

  /** Splitting every packed message by position gives back every channel with its own key, nothing lost or added. */
  lemma PairingPreserved(es: seq<Entry>, msgs: seq<Message>, groups: seq<seq<Entry>>)
    requires Listable(es) && Packed(msgs, groups)
    requires InOrder(Flatten(groups)) && multiset(Flatten(groups)) == multiset(es)
    ensures multiset(ParseAll(msgs)) == multiset(es)
  {
    var all := Flatten(groups);
    forall i | 0 <= i < |all| ensures all[i].channel != "" && Free(all[i].channel, ',') && Free(all[i].key, ',') {
      assert all[i] in multiset(es);
    }
    ParseGroups(msgs, groups);
  }

  lemma {:induction false} FlattenHas(groups: seq<seq<Entry>>, i: nat, e: Entry)
    requires i < |groups| && e in groups[i]
    ensures e in Flatten(groups)
  {
    if i < |groups| - 1 {
      FlattenHas(groups[..|groups| - 1], i, e);
    }
  }

  /** A message over the line length has a single name. */
  lemma LoneOrShort(es: seq<Entry>, msgs: seq<Message>, groups: seq<seq<Entry>>)
    requires Listable(es) && Packed(msgs, groups) && multiset(Flatten(groups)) == multiset(es)
    ensures forall m <- msgs :: Length(m) <= MAX_MESSAGE || Free(m.names, ',')
  {
    forall i | 0 <= i < |msgs| ensures Length(msgs[i]) <= MAX_MESSAGE || Free(msgs[i].names, ',') {
      if |groups[i]| == 1 {
        var e := groups[i][0];
        FlattenHas(groups, i, e);
        assert e in multiset(es);
        assert msgs[i].names == e.channel;
      }
    }
  }

  /** Without keyed channels first, positions would not pair up: the key would move to another channel. */
  lemma UnsortedMispairs(a: string, b: string, key: string)
    requires Listable([Entry(a, ""), Entry(b, key)]) && key != ""
    ensures Parse(Render([Entry(a, ""), Entry(b, key)])) == [Entry(a, key), Entry(b, "")]
  {
    var es := [Entry(a, ""), Entry(b, key)];
    SplitJoin(Names(es), ',');
    assert es[..1] == [Entry(a, "")] && es[..1][..0] == [] && Keys([]) == [];
    assert Keys(es[..1]) == [] && Keys(es) == [] + [key];
    KeysFree(es);
    SplitSingle(key, ',');
  }
}
