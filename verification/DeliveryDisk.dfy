/**
 The delivery protocol on log files. The state here is what the program holds: files, message IDs that are byte offsets,
 and what was written to clients. Every step is one step of the protocol, in which a load leaves out the messages that
 do not load.
 */
module DeliveryDisk {
  import opened Text
  import opened Positions
  import opened ZncLog
  import opened FsStore
  import opened FsCursors
  import opened FsLoads
  import opened DeliveryFs
  import D = Delivery

  type Target = D.Target
  type Client = D.Client
  type Key = D.Key

  /** What the handling of an input, given by its number, writes to a client: the message, or a batch from the log. */
  datatype Written =
    | Live(at: nat, client: Client, target: Target, msg: Message)
    | Backlog(at: nat, client: Client, target: Target, entries: seq<Entry>)

  /** A connection, and the message IDs in the PINGs sent to it. */
  datatype Peer = Peer(dc: D.Conn, pinged: set<(Target, Cursor)>)

  datatype Disk = Disk(files: map<Target, Files>,
                       ids: map<Key, Cursor>,
                       peers: seq<Peer>,
                       detached: set<Target>,
                       receipts: map<Key, Cursor>,
                       out: set<Written>)

  /**
   What happens: a message with the day and time of its time tag and its line, the answer to a PING, a client that
   connects or goes, a channel that is detached or attached, a restart. `outcome` and the sets of targets say which
   operations of the store fail.
   */
  datatype Input =
    | Say(target: Target, rec: Rec, storableTag: bool, ours: bool, origin: nat, blocked: bool, ignored: bool,
          outcome: D.Outcome, now: int)
    | Answer(index: nat, target: Target, id: Cursor)
    | Join(dc: D.Conn, now: int, me: string, failed: set<Target>, stuck: set<Target>, relays: (Target, Entry) -> bool)
    | Leave(index: nat)
    | Detach(target: Target, detached: bool)
    | Reboot(clean: bool)

  function FilesOf(files: map<Target, Files>, t: Target): Files {
    if t in files then files[t] else map[]
  }

  // ----- Steps -----

  /** LastMsgID: the end of today's file. */
  function LastID(files: Files, now: int): Cursor {
    Cursor(DayOf(now), |FileText(files, DayOf(now))| - 1)
  }

  function Known(keys: set<Key>): set<Client> {
    set k | k in keys :: k.1
  }

  predicate New(d: Disk, t: Target) {
    d.ids != map[] && forall k | k in d.ids.Keys :: k.0 != t
  }

  function WithTarget(d: Disk, t: Target, now: int): Disk {
    d.(ids := d.ids + map c | c in Known(d.ids.Keys) :: (t, c) := LastID(FilesOf(d.files, t), now))
  }

  /** The message as the protocol sees it. */
  function Abstract(x: Input): D.Message
    requires x.Say?
  {
    D.Message(x.rec.msg.command, x.storableTag, x.ours)
  }

  predicate Kept(x: Input)
    requires x.Say?
  {
    x.outcome.Kept? && x.rec.text != ""
  }

  /** Whether the log is written to at all. */
  predicate Logs(d: Disk, x: Input)
    requires x.Say?
  {
    D.Recordable(x.target, Abstract(x)) && !(New(d, x.target) && x.outcome.LastIdFailed?)
  }

  function AppendTo(files: Files, r: Rec): Files {
    files[r.day := FileText(files, r.day) + r.text + "\n"]
  }

  /** The ID of a message that is appended next. */
  function NextID(files: Files, r: Rec): Cursor {
    Cursor(r.day, |FileText(files, r.day)|)
  }

  predicate Forwards(d: Disk, dc: D.Conn, x: Input)
    requires x.Say?
  {
    var echo := dc.id == x.origin && x.ours;
    !D.Skips(dc, x.blocked) && x.target !in d.detached && !x.ignored && (!echo || dc.echoMessage)
  }

  function Ping(p: Peer, x: Input, id: Cursor): Peer
    requires x.Say?
  {
    if D.Skips(p.dc, x.blocked) || !Abstract(x).Chat() || p.dc.chatHistory then p
    else p.(pinged := p.pinged + {(x.target, id)})
  }

  /** Write the message to the connections, with a PING if it has an ID. */
  function Tell(d: Disk, x: Input, at: nat, id: Option<Cursor>): Disk
    requires x.Say?
  {
    d.(peers := seq(|d.peers|, i requires 0 <= i < |d.peers| =>
                      if id.Some? then Ping(d.peers[i], x, id.value) else d.peers[i]),
       out := d.out + set i | 0 <= i < |d.peers| && Forwards(d, d.peers[i].dc, x)
                          :: Live(at, d.peers[i].dc.client, x.target, x.rec.msg))
  }

  function DoSay(d: Disk, x: Input, at: nat): Disk
    requires x.Say?
  {
    if !Logs(d, x) then Tell(d, x, at, None)
    else
      var d1 := if New(d, x.target) then WithTarget(d, x.target, x.now) else d;
      if Kept(x) then
        var files := FilesOf(d.files, x.target);
        Tell(d1.(files := d.files[x.target := AppendTo(files, x.rec)]), x, at, Some(NextID(files, x.rec)))
      else Tell(d1, x, at, None)
  }

  predicate First(d: Disk, c: Client) {
    forall i | 0 <= i < |d.peers| :: d.peers[i].dc.client != c
  }

  /** Whether the client is sent its backlog when it connects. */
  predicate Replays(d: Disk, x: Input)
    requires x.Join?
  {
    !x.dc.chatHistory && First(d, x.dc.client)
  }

  /** Whether a loaded message is written: those of a detached channel only if they are to be relayed. */
  predicate Passes(d: Disk, x: Input, t: Target, e: Entry)
    requires x.Join?
  {
    t !in d.detached || x.relays(t, e)
  }

  function Sent(d: Disk, x: Input, t: Target, entries: seq<Entry>): seq<Entry>
    requires x.Join?
  {
    if entries == [] then []
    else (if Passes(d, x, t, entries[0]) then [entries[0]] else []) + Sent(d, x, t, entries[1..])
  }

  /** What is loaded for one target. */
  function Loaded(d: Disk, x: Input, t: Target): Result<seq<Entry>>
    requires x.Join? && (t, x.dc.client) in d.ids
  {
    if t in x.failed then Err
    else Load(FilesOf(d.files, t), d.ids[(t, x.dc.client)], x.now, t, x.me, LIMIT)
  }

  /** The batch of one target, if the load succeeds. */
  function Batch(d: Disk, x: Input, at: nat, t: Target): set<Written>
    requires x.Join? && (t, x.dc.client) in d.ids
  {
    match Loaded(d, x, t)
    case Err => {}
    case Ok(entries) => {Backlog(at, x.dc.client, t, Sent(d, x, t, entries))}
  }

  function DoJoin(d: Disk, x: Input, at: nat): Disk
    requires x.Join?
  {
    var c := x.dc.client;
    if !Replays(d, x) then d.(peers := d.peers + [Peer(x.dc, {})])
    else
      d.(peers := d.peers + [Peer(x.dc, {})],
         out := d.out + set k, w | k in d.ids.Keys && k.1 == c && w in Batch(d, x, at, k.0) :: w,
         ids := map k | k in d.ids ::
                  if k.1 == c && k.0 !in x.stuck then LastID(FilesOf(d.files, k.0), x.now) else d.ids[k])
  }

  function DoAnswer(d: Disk, x: Input): Disk
    requires x.Answer? && x.index < |d.peers|
  {
    d.(ids := d.ids[(x.target, d.peers[x.index].dc.client) := x.id])
  }

  function DoLeave(d: Disk, x: Input): Disk
    requires x.Leave? && x.index < |d.peers|
  {
    var c := d.peers[x.index].dc.client;
    d.(peers := d.peers[..x.index] + d.peers[x.index + 1..],
       receipts := (map k | k in d.receipts && k.1 != c :: d.receipts[k]) +
                   (map k | k in d.ids && k.1 == c :: d.ids[k]))
  }

  function DoReboot(d: Disk, x: Input): Disk
    requires x.Reboot?
  {
    var kept := map k | k in d.receipts && k.1 !in Known(d.ids.Keys) :: d.receipts[k];
    var receipts := if x.clean then kept + d.ids else d.receipts;
    d.(peers := [], ids := receipts, receipts := receipts)
  }

  /** Commands come in upper case, and a message that is logged has one line that can be read back. */
  predicate Sayable(r: Rec) {
    && r.clock.Valid() && Complete(r.msg) && ToUpper(r.msg.command) == r.msg.command
    && r.text == MarshalLine(r.msg, r.clock)
    && (r.text != "" ==> Loggable(r.msg) && WellFormed(r.msg) && PlainLine(r.text) && r.day > ZERO_DAY)
  }

  predicate Answerable(d: Disk, i: nat, t: Target, id: Cursor) {
    i < |d.peers| && (t, id) in d.peers[i].pinged
  }

  /** What can happen. A client answers only PINGs it was sent. */
  predicate Enabled(d: Disk, x: Input) {
    match x
    case Say(_, r, _, _, _, _, _, _, _) => Sayable(r)
    case Answer(i, t, id) => Answerable(d, i, t, id)
    case Join(dc, _, _, _, _, _) => dc.pinged == {}
    case Leave(i) => i < |d.peers|
    case Detach(_, _) => true
    case Reboot(_) => true
  }

  /** The handling of input number `at`. */
  function Step(d: Disk, x: Input, at: nat): Disk {
    match x
    case Say(_, _, _, _, _, _, _, _, _) => DoSay(d, x, at)
    case Answer(i, _, _) => if i < |d.peers| then DoAnswer(d, x) else d
    case Join(_, _, _, _, _, _) => DoJoin(d, x, at)
    case Leave(i) => if i < |d.peers| then DoLeave(d, x) else d
    case Detach(t, b) => d.(detached := if b then d.detached + {t} else d.detached - {t})
    case Reboot(_) => DoReboot(d, x)
  }

  // ----- The protocol behind it -----

  /** Everything that was logged, by target. */
  type History = map<Target, seq<Rec>>

  function RecsOf(recs: History, t: Target): seq<Rec> {
    if t in recs then recs[t] else []
  }

  ghost predicate TargetAgrees(files: Files, rs: seq<Rec>, l: seq<D.Message>) {
    Stored(files, rs) && Sound(rs) && SameLog(rs, l)
  }

  ghost predicate LogsAgree(files: map<Target, Files>, recs: History, log: D.Log) {
    forall t: Target {:trigger FilesOf(files, t)} ::
      TargetAgrees(FilesOf(files, t), RecsOf(recs, t), D.LogOf(log, t))
  }

  /** Message IDs point at the positions of the protocol's cursors. */
  ghost predicate IdsAgree(ids: map<Key, Cursor>, recs: History, cursors: map<Key, nat>) {
    ids.Keys == cursors.Keys && forall k | k in ids :: PointsAt(RecsOf(recs, k.0), ids[k], cursors[k])
  }

  /** The ID of the message at a position: where its line starts in the file of its day. */
  function IdOf(rs: seq<Rec>, i: nat): Cursor
    requires i < |rs|
  {
    Cursor(rs[i].day, |Unlines(DayLines(rs[..i], rs[i].day))|)
  }

  /** The ID is that of the message at the position. */
  ghost predicate Names(recs: History, t: Target, id: Cursor, pos: nat) {
    pos < |RecsOf(recs, t)| && id == IdOf(RecsOf(recs, t), pos)
  }

  ghost predicate PingAgrees(recs: History, dc: D.Conn, t: Target, id: Cursor) {
    exists pos: nat :: (t, pos) in dc.pinged && Names(recs, t, id, pos)
  }

  ghost predicate PeerAgrees(recs: History, p: Peer, dc: D.Conn) {
    p.dc == dc.(pinged := {}) && forall q | q in p.pinged :: PingAgrees(recs, dc, q.0, q.1)
  }

  ghost predicate PeersAgree(recs: History, peers: seq<Peer>, conns: seq<D.Conn>) {
    |peers| == |conns| && forall i | 0 <= i < |peers| :: PeerAgrees(recs, peers[i], conns[i])
  }

  /** LastMsgID points at the end of the log, and receipts outlive the program. */
  ghost predicate OnDisk(store: D.Store) {
    store.persistent && forall n: nat :: store.last(n) == n
  }

  ghost predicate Refines(d: Disk, recs: History, s: D.State) {
    && OnDisk(s.store) && d.detached == s.detached
    && LogsAgree(d.files, recs, s.log)
    && IdsAgree(d.ids, recs, s.cursors)
    && IdsAgree(d.receipts, recs, s.receipts)
    && PeersAgree(recs, d.peers, s.conns)
  }

  // ----- What a longer log keeps -----

  ghost predicate Grows(recs: History, recs': History) {
    forall t: Target :: RecsOf(recs, t) <= RecsOf(recs', t)
  }

  lemma PointsAtGrown(rs: seq<Rec>, rs': seq<Rec>, id: Cursor, p: nat)
    requires rs <= rs' && PointsAt(rs, id, p)
    ensures PointsAt(rs', id, p)
  {
    assert rs' == rs + rs'[|rs|..];
    PointsAtKept(rs, id, p, rs'[|rs|..]);
  }

  lemma IdsGrown(ids: map<Key, Cursor>, recs: History, recs': History, cursors: map<Key, nat>)
    requires Grows(recs, recs') && IdsAgree(ids, recs, cursors)
    ensures IdsAgree(ids, recs', cursors)
  {
    forall k | k in ids ensures PointsAt(RecsOf(recs', k.0), ids[k], cursors[k]) {
      PointsAtGrown(RecsOf(recs, k.0), RecsOf(recs', k.0), ids[k], cursors[k]);
    }
  }

  lemma PeerGrown(recs: History, recs': History, p: Peer, dc: D.Conn)
    requires Grows(recs, recs') && PeerAgrees(recs, p, dc)
    ensures PeerAgrees(recs', p, dc)
  {
    forall q | q in p.pinged ensures PingAgrees(recs', dc, q.0, q.1) {
      var pos: nat :| (q.0, pos) in dc.pinged && Names(recs, q.0, q.1, pos);
      NamesGrown(recs, recs', q.0, q.1, pos);
    }
  }

  lemma NamesGrown(recs: History, recs': History, t: Target, id: Cursor, pos: nat)
    requires Grows(recs, recs') && Names(recs, t, id, pos)
    ensures Names(recs', t, id, pos)
  {
    var rs, rs' := RecsOf(recs, t), RecsOf(recs', t);
    assert rs <= rs' && rs'[..pos] == rs[..pos];
  }

  /** An ID points behind its message. */
  lemma NamesPoints(recs: History, t: Target, id: Cursor, pos: nat)
    requires Names(recs, t, id, pos)
    ensures PointsAt(RecsOf(recs, t), id, pos + 1)
  {
    var rs := RecsOf(recs, t);
    AppendPointsAt(rs[..pos], rs[pos]);
    assert rs[..pos] + [rs[pos]] == rs[..pos + 1];
    PointsAtGrown(rs[..pos + 1], rs, id, pos + 1);
  }

  lemma {:induction false} DayLinesGrow(rs: seq<Rec>, a: nat, b: nat, d: int)
    requires a < b <= |rs| && rs[a].day == d
    ensures |Unlines(DayLines(rs[..a], d))| < |Unlines(DayLines(rs[..b], d))|
  {
    var rest := rs[a..b];
    assert rs[..b] == rs[..a] + rest && rest[0] == rs[a];
    DayLinesConcat(rs[..a], rest, d);
    UnlinesConcat(DayLines(rs[..a], d), DayLines(rest, d));
    assert DayLines(rest, d) == [rs[a].text] + DayLines(rest[1..], d);
    assert DayLines(rest, d)[0] == rs[a].text;
  }

  /** No two messages of a target have the same ID. */
  lemma NamesOne(recs: History, t: Target, id: Cursor, a: nat, b: nat)
    requires Names(recs, t, id, a) && Names(recs, t, id, b)
    ensures a == b
  {
    var rs := RecsOf(recs, t);
    if a < b {
      DayLinesGrow(rs, a, b, id.day);
    } else if b < a {
      DayLinesGrow(rs, b, a, id.day);
    }
  }

  // ----- A message -----

  function Produced(x: Input): D.Event
    requires x.Say?
  {
    D.Produce(x.target, Abstract(x), x.origin, x.blocked, x.ignored,
              if x.outcome.Kept? && !Kept(x) then D.NotKept else x.outcome)
  }

  /** What is logged after an input. */
  function Said(d: Disk, recs: History, x: Input): History {
    if x.Say? && Logs(d, x) && Kept(x) then recs[x.target := RecsOf(recs, x.target) + [x.rec]] else recs
  }

  lemma NewIff(d: Disk, recs: History, s: D.State, t: Target)
    requires IdsAgree(d.ids, recs, s.cursors)
    ensures New(d, t) <==> D.Introduces(s, t)
    ensures Known(d.ids.Keys) == D.Clients(s.cursors)
  {
    assert d.ids == map[] <==> d.ids.Keys == {};
    assert s.cursors == map[] <==> s.cursors.Keys == {};
  }

  lemma LastPoints(files: Files, rs: seq<Rec>, l: seq<D.Message>, now: int)
    requires TargetAgrees(files, rs, l)
    ensures PointsAt(rs, LastID(files, now), |l|)
  {
    LastPointsAt(files, rs, DayOf(now));
  }

  lemma TargetIntroduced(d: Disk, recs: History, s: D.State, t: Target, now: int)
    requires Refines(d, recs, s)
    ensures Refines(WithTarget(d, t, now), recs, D.WithTarget(s, t))
  {
    NewIff(d, recs, s, t);
    LastPoints(FilesOf(d.files, t), RecsOf(recs, t), D.LogOf(s.log, t), now);
    var d', s' := WithTarget(d, t, now), D.WithTarget(s, t);
    assert d'.ids.Keys == s'.cursors.Keys;
  }

  lemma ToldNone(d: Disk, recs: History, s: D.State, x: Input, at: nat)
    requires x.Say? && Refines(d, recs, s)
    ensures Refines(Tell(d, x, at, None), recs, s)
  {
  }

  lemma ChatIsTalk(m: Message, storableTag: bool, ours: bool)
    requires Loggable(m) && ToUpper(m.command) == m.command
    ensures D.Message(m.command, storableTag, ours).Chat() <==> !IsEvent(m)
  {
  }

  lemma SameLogMore(rs: seq<Rec>, l: seq<D.Message>, r: Rec, m: D.Message)
    requires SameLog(rs, l) && (m.Chat() <==> Talk()(r))
    ensures SameLog(rs + [r], l + [m])
  {
  }

  /** A message can be logged: the log goes on with it, under the ID it is given. */
  ghost predicate CanLog(files: Files, rs: seq<Rec>, l: seq<D.Message>, r: Rec, m: D.Message) {
    TargetAgrees(AppendTo(files, r), rs + [r], l + [m]) && NextID(files, r) == IdOf(rs + [r], |rs|)
  }

  lemma LineLogged(files: Files, rs: seq<Rec>, l: seq<D.Message>, r: Rec, storableTag: bool, ours: bool)
    requires TargetAgrees(files, rs, l) && Sayable(r) && r.text != ""
    ensures CanLog(files, rs, l, r, D.Message(r.msg.command, storableTag, ours))
  {
    AppendStored(files, rs, r);
    SoundNext(rs, r);
    assert (rs + [r])[..|rs|] == rs;
    ChatIsTalk(r.msg, storableTag, ours);
    SameLogMore(rs, l, r, D.Message(r.msg.command, storableTag, ours));
  }

  lemma SoundNext(rs: seq<Rec>, r: Rec)
    requires Sound(rs) && Sayable(r) && r.text != ""
    ensures Sound(rs + [r])
  {
    assert Genuine(r);
  }

  lemma LogsExtended(files: map<Target, Files>, recs: History, log: D.Log, t: Target, f: Files, r: Rec, m: D.Message)
    requires LogsAgree(files, recs, log) && TargetAgrees(f, RecsOf(recs, t) + [r], D.LogOf(log, t) + [m])
    ensures LogsAgree(files[t := f], recs[t := RecsOf(recs, t) + [r]], D.Appended(log, t, m))
    ensures Grows(recs, recs[t := RecsOf(recs, t) + [r]])
  {
    forall u: Target
      ensures TargetAgrees(FilesOf(files[t := f], u), RecsOf(recs[t := RecsOf(recs, t) + [r]], u),
                           D.LogOf(D.Appended(log, t, m), u))
    {
      assert TargetAgrees(FilesOf(files, u), RecsOf(recs, u), D.LogOf(log, u));
    }
  }

  lemma PeersGrown(recs: History, recs': History, peers: seq<Peer>, conns: seq<D.Conn>)
    requires Grows(recs, recs') && PeersAgree(recs, peers, conns)
    ensures PeersAgree(recs', peers, conns)
  {
    forall i | 0 <= i < |peers| ensures PeerAgrees(recs', peers[i], conns[i]) {
      PeerGrown(recs, recs', peers[i], conns[i]);
    }
  }

  lemma SayLogged(d: Disk, recs: History, s: D.State, x: Input)
    requires Refines(d, recs, s) && x.Say?
    requires CanLog(FilesOf(d.files, x.target), RecsOf(recs, x.target), D.LogOf(s.log, x.target), x.rec, Abstract(x))
    ensures var t, r := x.target, x.rec;
            var files := FilesOf(d.files, t);
            var recs' := recs[t := RecsOf(recs, t) + [r]];
            && Refines(d.(files := d.files[t := AppendTo(files, r)]), recs',
                       s.(log := D.Appended(s.log, t, Abstract(x))))
            && Names(recs', t, NextID(files, r), |D.LogOf(s.log, t)|)
  {
    var t, r := x.target, x.rec;
    var recs' := recs[t := RecsOf(recs, t) + [r]];
    assert TargetAgrees(FilesOf(d.files, t), RecsOf(recs, t), D.LogOf(s.log, t));
    LogsExtended(d.files, recs, s.log, t, AppendTo(FilesOf(d.files, t), r), r, Abstract(x));
    IdsGrown(d.ids, recs, recs', s.cursors);
    IdsGrown(d.receipts, recs, recs', s.receipts);
    PeersGrown(recs, recs', d.peers, s.conns);
  }

  lemma PingKept(recs: History, p: Peer, dc: D.Conn, x: Input, id: Cursor, pos: nat)
    requires x.Say? && PeerAgrees(recs, p, dc) && Names(recs, x.target, id, pos)
    ensures PeerAgrees(recs, Ping(p, x, id), D.Ping(dc, Produced(x), pos))
  {
    var dc' := D.Ping(dc, Produced(x), pos);
    forall q | q in Ping(p, x, id).pinged ensures PingAgrees(recs, dc', q.0, q.1) {
      if q in p.pinged {
        var at: nat :| (q.0, at) in dc.pinged && Names(recs, q.0, q.1, at);
        assert (q.0, at) in dc'.pinged;
      } else {
        assert (x.target, pos) in dc'.pinged;
      }
    }
  }

  lemma ToldSome(d: Disk, recs: History, s: D.State, x: Input, at: nat, id: Cursor, pos: nat)
    requires Refines(d, recs, s) && x.Say? && Names(recs, x.target, id, pos)
    ensures Refines(Tell(d, x, at, Some(id)), recs, D.Forward(s, Produced(x), pos))
  {
    var d', s' := Tell(d, x, at, Some(id)), D.Forward(s, Produced(x), pos);
    forall i | 0 <= i < |d.peers| ensures PeerAgrees(recs, d'.peers[i], s'.conns[i]) {
      PingKept(recs, d.peers[i], s.conns[i], x, id, pos);
    }
  }

  /** One more target, if the message is its first. */
  lemma TargetKnown(d: Disk, recs: History, s: D.State, t: Target, now: int)
    requires Refines(d, recs, s)
    ensures Refines(if New(d, t) then WithTarget(d, t, now) else d, recs,
                    if New(d, t) then D.WithTarget(s, t) else s)
  {
    if New(d, t) {
      TargetIntroduced(d, recs, s, t, now);
    }
  }

  lemma SayKept(d: Disk, recs: History, s: D.State, x: Input, at: nat, files: Files, r: Rec, pos: nat)
    requires Refines(d, recs, s) && x.Say?
    requires CanLog(files, RecsOf(recs, x.target), D.LogOf(s.log, x.target), r, Abstract(x))
    requires files == FilesOf(d.files, x.target) && r == x.rec && pos == |D.LogOf(s.log, x.target)|
    ensures Refines(Tell(d.(files := d.files[x.target := AppendTo(files, r)]), x, at, Some(NextID(files, r))),
                    recs[x.target := RecsOf(recs, x.target) + [r]],
                    D.Forward(s.(log := D.Appended(s.log, x.target, Abstract(x))), Produced(x), pos))
  {
    var t := x.target;
    SayLogged(d, recs, s, x);
    assert TargetAgrees(files, RecsOf(recs, t), D.LogOf(s.log, t));
    ToldSome(d.(files := d.files[t := AppendTo(files, r)]), recs[t := RecsOf(recs, t) + [r]],
             s.(log := D.Appended(s.log, t, Abstract(x))), x, at, NextID(files, r), pos);
  }

  lemma SayUnlogged(d: Disk, recs: History, s: D.State, x: Input, at: nat)
    requires Refines(d, recs, s) && x.Say? && !Logs(d, x)
    ensures Refines(DoSay(d, x, at), Said(d, recs, x), D.DoProduce(s, Produced(x)))
  {
    NewIff(d, recs, s, x.target);
    assert D.DoProduce(s, Produced(x)) == s;
    ToldNone(d, recs, s, x, at);
  }

  /** A message that is to be logged, with its target known. */
  lemma SaidIs(d: Disk, recs: History, s: D.State, x: Input, at: nat, d1: Disk, s1: D.State, files: Files)
    requires x.Say? && Logs(d, x) && (New(d, x.target) <==> D.Introduces(s, x.target))
    requires d1 == (if New(d, x.target) then WithTarget(d, x.target, x.now) else d) &&
             files == FilesOf(d.files, x.target)
    requires s1 == if New(d, x.target) then D.WithTarget(s, x.target) else s
    ensures DoSay(d, x, at) ==
            if !Kept(x) then Tell(d1, x, at, None)
            else Tell(d1.(files := d1.files[x.target := AppendTo(files, x.rec)]), x, at, Some(NextID(files, x.rec)))
    ensures D.DoProduce(s, Produced(x)) ==
            if !Kept(x) then s1
            else D.Forward(s1.(log := D.Appended(s1.log, x.target, Abstract(x))), Produced(x),
                           |D.LogOf(s1.log, x.target)|)
    ensures d1.files == d.files && s1.log == s.log
  {
  }

  lemma SayKnown(d: Disk, recs: History, s: D.State, x: Input, at: nat)
    requires Refines(d, recs, s) && x.Say?
    requires Kept(x) ==>
      CanLog(FilesOf(d.files, x.target), RecsOf(recs, x.target), D.LogOf(s.log, x.target), x.rec, Abstract(x))
    ensures var files := FilesOf(d.files, x.target);
            Refines(
              if !Kept(x) then Tell(d, x, at, None)
              else Tell(d.(files := d.files[x.target := AppendTo(files, x.rec)]), x, at, Some(NextID(files, x.rec))),
              if Kept(x) then recs[x.target := RecsOf(recs, x.target) + [x.rec]] else recs,
              if !Kept(x) then s
              else D.Forward(s.(log := D.Appended(s.log, x.target, Abstract(x))), Produced(x),
                             |D.LogOf(s.log, x.target)|))
  {
    if Kept(x) {
      SayKept(d, recs, s, x, at, FilesOf(d.files, x.target), x.rec, |D.LogOf(s.log, x.target)|);
    } else {
      ToldNone(d, recs, s, x, at);
    }
  }

  lemma SayToLog(d: Disk, recs: History, s: D.State, x: Input, at: nat, d1: Disk, s1: D.State)
    requires Refines(d1, recs, s1) && x.Say? && Logs(d, x) && (New(d, x.target) <==> D.Introduces(s, x.target))
    requires d1 == if New(d, x.target) then WithTarget(d, x.target, x.now) else d
    requires s1 == if New(d, x.target) then D.WithTarget(s, x.target) else s
    requires Kept(x) ==>
      CanLog(FilesOf(d.files, x.target), RecsOf(recs, x.target), D.LogOf(s.log, x.target), x.rec, Abstract(x))
    ensures Refines(DoSay(d, x, at), Said(d, recs, x), D.DoProduce(s, Produced(x)))
  {
    SaidIs(d, recs, s, x, at, d1, s1, FilesOf(d.files, x.target));
    SayKnown(d1, recs, s1, x, at);
  }

  lemma SayRefines(d: Disk, recs: History, s: D.State, x: Input, at: nat)
    requires Refines(d, recs, s) && x.Say?
    requires Kept(x) ==>
      CanLog(FilesOf(d.files, x.target), RecsOf(recs, x.target), D.LogOf(s.log, x.target), x.rec, Abstract(x))
    ensures Refines(DoSay(d, x, at), Said(d, recs, x), D.DoProduce(s, Produced(x)))
  {
    if !Logs(d, x) {
      SayUnlogged(d, recs, s, x, at);
    } else {
      NewIff(d, recs, s, x.target);
      TargetKnown(d, recs, s, x.target, x.now);
      SayToLog(d, recs, s, x, at, if New(d, x.target) then WithTarget(d, x.target, x.now) else d,
               if New(d, x.target) then D.WithTarget(s, x.target) else s);
    }
  }

  // ----- A client that connects -----

  /** The targets a backlog is read of. */
  function Read(d: Disk, x: Input): set<Target>
    requires x.Join?
  {
    set k | k in d.ids.Keys && k.1 == x.dc.client && k.0 !in x.failed && Replays(d, x) :: k.0
  }

  /** The messages that are left out: of each target, those that do not load. */
  ghost function LeftOut(d: Disk, recs: History, s: D.State, x: Input): set<(Target, nat)>
    requires x.Join? && IdsAgree(d.ids, recs, s.cursors)
  {
    set t, q | t in Read(d, x) && q in OmitsOf(d, recs, s, x, t) :: q
  }

  ghost function OmitsOf(d: Disk, recs: History, s: D.State, x: Input, t: Target): set<(Target, nat)>
    requires x.Join? && IdsAgree(d.ids, recs, s.cursors) && t in Read(d, x)
  {
    var k := (t, x.dc.client);
    Omits(RecsOf(recs, t), t, d.ids[k], s.cursors[k], x.now)
  }

  ghost function RelayedOf(d: Disk, recs: History, x: Input): set<(Target, nat)>
    requires x.Join?
  {
    set t, i: nat | t in Read(d, x) && i < |RecsOf(recs, t)| &&
                    x.relays(t, EntryOf(t, x.me)(RecsOf(recs, t)[i]))
                 :: (t, i)
  }

  ghost function Connected(d: Disk, recs: History, s: D.State, x: Input): D.Event
    requires x.Join? && IdsAgree(d.ids, recs, s.cursors)
  {
    D.Connect(x.dc, x.failed, x.stuck, RelayedOf(d, recs, x), LeftOut(d, recs, s, x))
  }

  lemma LeftOutIff(d: Disk, recs: History, s: D.State, x: Input, t: Target, i: nat)
    requires x.Join? && IdsAgree(d.ids, recs, s.cursors) && t in Read(d, x)
    ensures (t, i) in LeftOut(d, recs, s, x) <==> (t, i) in OmitsOf(d, recs, s, x, t)
  {
  }

  /** What becomes of an unread message when the backlog of its target is read from the files. */
  ghost function FateOf(d: Disk, x: Input, t: Target, rs: seq<Rec>, p: nat, i: nat): D.Fate
    requires x.Join? && (t, x.dc.client) in d.ids && i < |rs|
  {
    var id := d.ids[(t, x.dc.client)];
    if t in x.failed then D.Unreadable
    else if Loads(rs, id, p, x.now, LIMIT, i) then
      (if Passes(d, x, t, EntryOf(t, x.me)(rs[i])) then D.Queued else D.Withheld)
    else if |Where(LoadsAt(rs, id, p, x.now), i + 1, |rs|)| >= LIMIT then D.TooOld
    else D.Omitted
  }

  lemma OmitsIff(rs: seq<Rec>, t: Target, id: Cursor, p: nat, now: int, i: nat)
    requires p <= i < |rs| && Talk()(rs[i])
    ensures (t, i) in Omits(rs, t, id, p, now) <==>
            !Loads(rs, id, p, now, LIMIT, i) && |Where(LoadsAt(rs, id, p, now), i + 1, |rs|)| < LIMIT
  {
    assert (t, i) in Omits(rs, t, id, p, now) <==> DeliveryFs.Left(LoadsAt(rs, id, p, now), |rs|, LIMIT, i);
  }

  /** A message that is not left out is shown with room for it exactly if it loads. */
  lemma ShownIff(could: nat -> bool, loads: nat -> bool, shown: nat -> bool, p: nat, n: nat, limit: nat, i: nat)
    requires Rest(could, loads, shown, p, n, limit) && p <= i < n
    requires loads(i) || |Where(loads, i + 1, n)| >= limit
    ensures |Where(shown, i + 1, n)| < limit <==> loads(i)
  {
    if loads(i) {
      LoadedShown(could, loads, shown, p, n, limit, i);
    } else {
      LaterShown(could, loads, shown, p, n, limit, i);
    }
  }

  lemma LaterShown(could: nat -> bool, loads: nat -> bool, shown: nat -> bool, p: nat, n: nat, limit: nat, i: nat)
    requires Rest(could, loads, shown, p, n, limit) && p <= i
    ensures |Where(loads, i + 1, n)| <= |Where(shown, i + 1, n)|
  {
    WhereMore(loads, shown, i + 1, n);
  }

  lemma VisibleSame(l: seq<D.Message>, t: Target, a: set<(Target, nat)>, b: set<(Target, nat)>, p: nat)
    requires forall i: nat :: (t, i) in a <==> (t, i) in b
    ensures D.Visible(l, t, a, p) == D.Visible(l, t, b, p)
  {
    WhereSame(D.Shown(l, t, a), D.Shown(l, t, b), p, |l|);
  }

  lemma RelayedIff(d: Disk, recs: History, x: Input, t: Target, i: nat)
    requires x.Join? && t in Read(d, x) && i < |RecsOf(recs, t)|
    ensures (t, i) in RelayedOf(d, recs, x) <==> x.relays(t, EntryOf(t, x.me)(RecsOf(recs, t)[i]))
  {
  }

  /** What a load leaves of one target. */
  lemma Leaves(files: Files, rs: seq<Rec>, l: seq<D.Message>, t: Target, id: Cursor, p: nat, now: int, me: string)
    requires TargetAgrees(files, rs, l) && PointsAt(rs, id, p)
    ensures |Where(LoadsAt(rs, id, p, now), p, |rs|)| <= LIMIT
    ensures Rest(Told(rs), LoadsAt(rs, id, p, now), D.Shown(l, t, Omits(rs, t, id, p, now)), p, |l|, LIMIT)
  {
    var ps := LoadLatestIDIff(files, rs, id, p, now, t, me, LIMIT);
    FewLoad(rs, id, p, now, ps);
    OmitsRest(rs, l, t, id, p, now, ps);
  }

  /** The protocol decides on an unread message what becomes of it on disk. */
  lemma FateIs(d: Disk, recs: History, s: D.State, x: Input, t: Target, i: nat)
    requires Refines(d, recs, s) && x.Join? && Replays(d, x) && (t, x.dc.client) in d.ids
    requires var l := D.LogOf(s.log, t); s.cursors[(t, x.dc.client)] <= i < |l| && l[i].Chat()
    ensures i < |RecsOf(recs, t)| && Talk()(RecsOf(recs, t)[i])
    ensures D.ReplayFate(s, Connected(d, recs, s, x), t, i) ==
            FateOf(d, x, t, RecsOf(recs, t), s.cursors[(t, x.dc.client)], i)
  {
    var k, e, l, rs := (t, x.dc.client), Connected(d, recs, s, x), D.LogOf(s.log, t), RecsOf(recs, t);
    var files := FilesOf(d.files, t);
    assert TargetAgrees(files, rs, l) && PointsAt(rs, d.ids[k], s.cursors[k]);
    if t !in x.failed {
      assert k in d.ids.Keys && k.0 in Read(d, x);
      FateRead(d, recs, s, x, t, i, d.ids[k], s.cursors[k], rs, l);
    }
  }

  lemma FateRead(d: Disk, recs: History, s: D.State, x: Input, t: Target, i: nat, id: Cursor, p: nat, rs: seq<Rec>,
                 l: seq<D.Message>)
    requires x.Join? && t in Read(d, x) && IdsAgree(d.ids, recs, s.cursors) && d.detached == s.detached
    requires id == d.ids[(t, x.dc.client)] && p == s.cursors[(t, x.dc.client)] && rs == RecsOf(recs, t)
    requires l == D.LogOf(s.log, t) && TargetAgrees(FilesOf(d.files, t), rs, l)
    requires p <= i < |rs| && Talk()(rs[i])
    ensures D.ReplayFate(s, Connected(d, recs, s, x), t, i) == FateOf(d, x, t, rs, p, i)
  {
    var e := Connected(d, recs, s, x);
    forall j: nat ensures (t, j) in e.omitted <==> (t, j) in Omits(rs, t, id, p, x.now) {
      LeftOutIff(d, recs, s, x, t, j);
    }
    VisibleSame(l, t, e.omitted, Omits(rs, t, id, p, x.now), i + 1);
    Leaves(FilesOf(d.files, t), rs, l, t, id, p, x.now, x.me);
    OmitsIff(rs, t, id, p, x.now, i);
    if (t, i) !in e.omitted {
      ShownIff(Told(rs), LoadsAt(rs, id, p, x.now), D.Shown(l, t, Omits(rs, t, id, p, x.now)), p, |l|, LIMIT, i);
    }
    RelayedIff(d, recs, x, t, i);
  }

  // ----- The batch -----

  /** The batch of a target holds the messages at these positions: all that load and are not withheld. */
  ghost predicate Batches(d: Disk, x: Input, t: Target, rs: seq<Rec>, p: nat, entries: seq<Entry>, qs: seq<nat>)
    requires x.Join? && (t, x.dc.client) in d.ids
  {
    && entries == Map(Shows(rs, EntryOf(t, x.me)), qs) && DayOrdered(rs, qs)
    && forall i: nat :: i in qs <==>
         Loads(rs, d.ids[(t, x.dc.client)], p, x.now, LIMIT, i) && Passes(d, x, t, Shows(rs, EntryOf(t, x.me))(i))
  }

  lemma MapFirst(at: nat -> Entry, i: nat, ps: seq<nat>)
    ensures Map(at, [i] + ps) == [at(i)] + Map(at, ps)
  {
  }

  lemma SentFirst(d: Disk, x: Input, t: Target, e: Entry, es: seq<Entry>)
    requires x.Join?
    ensures Sent(d, x, t, [e] + es) == if Passes(d, x, t, e) then [e] + Sent(d, x, t, es) else Sent(d, x, t, es)
  {
    assert ([e] + es)[1..] == es;
    assert [] + Sent(d, x, t, es) == Sent(d, x, t, es);
  }

  lemma {:induction false} SentAt(d: Disk, x: Input, t: Target, at: nat -> Entry, ps: seq<nat>) returns (qs: seq<nat>)
    requires x.Join?
    ensures Sent(d, x, t, Map(at, ps)) == Map(at, qs)
    ensures forall i :: i in qs <==> i in ps && Passes(d, x, t, at(i))
    ensures Within(qs, ps)
    decreases ps
  {
    if ps == [] {
      qs := [];
      assert Map(at, []) == [] && InPlaces([], ps, []);
    } else {
      var rest := SentAt(d, x, t, at, ps[1..]);
      assert ps == [ps[0]] + ps[1..];
      MapFirst(at, ps[0], ps[1..]);
      SentFirst(d, x, t, at(ps[0]), Map(at, ps[1..]));
      qs := if Passes(d, x, t, at(ps[0])) then [ps[0]] + rest else rest;
      MapFirst(at, ps[0], rest);
      WithinFirst(rest, ps[1..], ps[0]);
      WithinMore(rest, ps[1..], ps[0]);
    }
  }

  /** In the same order as in another list. */
  ghost predicate Within(a: seq<nat>, b: seq<nat>) {
    exists at: seq<nat> :: InPlaces(a, b, at)
  }

  ghost predicate InPlaces(a: seq<nat>, b: seq<nat>, at: seq<nat>) {
    |at| == |a| && Ascending(at) && forall i | 0 <= i < |a| :: at[i] < |b| && a[i] == b[at[i]]
  }

  lemma Shifted(a: seq<nat>, b: seq<nat>, at: seq<nat>, x: nat) returns (up: seq<nat>)
    requires InPlaces(a, b, at)
    ensures InPlaces(a, [x] + b, up) && forall i | 0 <= i < |up| :: up[i] > 0
  {
    up := seq(|at|, i requires 0 <= i < |at| => at[i] + 1);
  }

  lemma WithinFirst(a: seq<nat>, b: seq<nat>, x: nat)
    requires Within(a, b)
    ensures Within([x] + a, [x] + b)
  {
    var at :| InPlaces(a, b, at);
    var up := Shifted(a, b, at, x);
    assert InPlaces([x] + a, [x] + b, [0] + up);
  }

  lemma WithinMore(a: seq<nat>, b: seq<nat>, x: nat)
    requires Within(a, b)
    ensures Within(a, [x] + b)
  {
    var at :| InPlaces(a, b, at);
    var up := Shifted(a, b, at, x);
  }

  lemma WithinOrdered(rs: seq<Rec>, a: seq<nat>, b: seq<nat>)
    requires Within(a, b) && DayOrdered(rs, b)
    ensures DayOrdered(rs, a)
  {
    var at :| InPlaces(a, b, at);
  }

  /** What is written for a target that can be read. */
  lemma JoinSends(d: Disk, x: Input, at: nat, t: Target, rs: seq<Rec>, p: nat)
    returns (entries: seq<Entry>, qs: seq<nat>)
    requires x.Join? && Replays(d, x) && (t, x.dc.client) in d.ids && t !in x.failed
    requires Stored(FilesOf(d.files, t), rs) && Sound(rs) && PointsAt(rs, d.ids[(t, x.dc.client)], p)
    ensures Backlog(at, x.dc.client, t, entries) in DoJoin(d, x, at).out
    ensures Batches(d, x, t, rs, p, entries, qs)
  {
    var k := (t, x.dc.client);
    var ps := LoadLatestIDIff(FilesOf(d.files, t), rs, d.ids[k], p, x.now, t, x.me, LIMIT);
    var shows := Shows(rs, EntryOf(t, x.me));
    qs := SentAt(d, x, t, shows, ps);
    WithinOrdered(rs, qs, ps);
    entries := Sent(d, x, t, Map(shows, ps));
    assert k in d.ids.Keys && Backlog(at, x.dc.client, t, entries) in Batch(d, x, at, k.0);
  }

  // ----- The step -----

  lemma FirstIff(recs: History, d: Disk, s: D.State, c: Client)
    requires PeersAgree(recs, d.peers, s.conns)
    ensures First(d, c) <==> D.First(s, c)
  {
    assert forall i | 0 <= i < |d.peers| :: PeerAgrees(recs, d.peers[i], s.conns[i]);
  }

  /** What connecting does to one cursor of the protocol. */
  lemma CursorAfter(s: D.State, e: D.Event, k: Key)
    requires e.Connect? && !e.conn.chatHistory && D.First(s, e.conn.client) && k in s.cursors && OnDisk(s.store)
    ensures var s' := D.DoConnect(s, e);
            && k in s'.cursors
            && s'.cursors[k] == if k.1 == e.conn.client && k.0 !in e.stuck then |D.LogOf(s.log, k.0)| else s.cursors[k]
  {
    assert k.1 == e.conn.client ==> k.0 in D.TargetsOf(s.cursors, e.conn.client);
  }

  lemma CursorKeys(s: D.State, e: D.Event)
    requires e.Connect?
    ensures D.DoConnect(s, e).cursors.Keys == s.cursors.Keys
  {
  }

  lemma JoinIds(d: Disk, recs: History, s: D.State, x: Input, at: nat)
    requires Refines(d, recs, s) && x.Join? && Replays(d, x)
    ensures IdsAgree(DoJoin(d, x, at).ids, recs, D.DoConnect(s, Connected(d, recs, s, x)).cursors)
  {
    var e, ids := Connected(d, recs, s, x), DoJoin(d, x, at).ids;
    var cursors := D.DoConnect(s, e).cursors;
    FirstIff(recs, d, s, x.dc.client);
    CursorKeys(s, e);
    assert ids.Keys == d.ids.Keys;
    forall k | k in ids ensures PointsAt(RecsOf(recs, k.0), ids[k], cursors[k]) {
      CursorAfter(s, e, k);
      LastPoints(FilesOf(d.files, k.0), RecsOf(recs, k.0), D.LogOf(s.log, k.0), x.now);
    }
  }

  lemma JoinPeers(d: Disk, recs: History, s: D.State, x: Input, at: nat)
    requires PeersAgree(recs, d.peers, s.conns) && x.Join? && IdsAgree(d.ids, recs, s.cursors) && x.dc.pinged == {}
    ensures PeersAgree(recs, DoJoin(d, x, at).peers, D.DoConnect(s, Connected(d, recs, s, x)).conns)
  {
    D.ConnectConns(s, Connected(d, recs, s, x));
    assert PeerAgrees(recs, Peer(x.dc, {}), x.dc);
  }

  /** Nothing but cursors, connections and decisions changes. */
  lemma ConnectKeeps(s: D.State, e: D.Event)
    requires e.Connect?
    ensures var s' := D.DoConnect(s, e);
            && s'.store == s.store && s'.log == s.log && s'.detached == s.detached && s'.receipts == s.receipts
            && (e.conn.chatHistory || !D.First(s, e.conn.client) ==> s'.cursors == s.cursors)
  {
  }

  lemma JoinKeeps(d: Disk, x: Input, at: nat)
    requires x.Join?
    ensures var d' := DoJoin(d, x, at);
            && d'.files == d.files && d'.detached == d.detached && d'.receipts == d.receipts
            && (!Replays(d, x) ==> d'.ids == d.ids)
  {
  }

  lemma JoinRefines(d: Disk, recs: History, s: D.State, x: Input, at: nat)
    requires Refines(d, recs, s) && x.Join? && x.dc.pinged == {}
    ensures Refines(DoJoin(d, x, at), recs, D.DoConnect(s, Connected(d, recs, s, x)))
  {
    FirstIff(recs, d, s, x.dc.client);
    JoinPeers(d, recs, s, x, at);
    ConnectKeeps(s, Connected(d, recs, s, x));
    JoinKeeps(d, x, at);
    if Replays(d, x) {
      JoinIds(d, recs, s, x, at);
    }
  }

  // ----- Other inputs -----

  /** The position a PING was sent for. */
  lemma PingedAt(d: Disk, recs: History, s: D.State, x: Input) returns (pos: nat)
    requires PeersAgree(recs, d.peers, s.conns) && x.Answer? && Answerable(d, x.index, x.target, x.id)
    ensures (x.target, pos) in s.conns[x.index].pinged && Names(recs, x.target, x.id, pos)
    ensures d.peers[x.index].dc.client == s.conns[x.index].client
  {
    var dc, q := s.conns[x.index], (x.target, x.id);
    assert PeerAgrees(recs, d.peers[x.index], dc);
    assert q in d.peers[x.index].pinged && PingAgrees(recs, dc, q.0, q.1);
    pos :| (x.target, pos) in dc.pinged && Names(recs, x.target, x.id, pos);
  }

  lemma IdsUpdated(ids: map<Key, Cursor>, recs: History, cursors: map<Key, nat>, k: Key, id: Cursor, p: nat)
    requires IdsAgree(ids, recs, cursors) && PointsAt(RecsOf(recs, k.0), id, p)
    ensures IdsAgree(ids[k := id], recs, cursors[k := p])
  {
  }

  lemma IdsReplaced(d: Disk, recs: History, s: D.State, ids: map<Key, Cursor>, cursors: map<Key, nat>,
                    birth: map<Key, nat>)
    requires Refines(d, recs, s) && IdsAgree(ids, recs, cursors)
    ensures Refines(d.(ids := ids), recs, s.(cursors := cursors, birth := birth))
  {
  }

  lemma PongIs(s: D.State, i: nat, t: Target, pos: nat)
    requires i < |s.conns|
    ensures var s' := D.DoPong(s, D.Pong(i, t, pos));
            s' == s.(cursors := s.cursors[(t, s.conns[i].client) := pos + 1], birth := s'.birth)
  {
  }

  lemma AnswerRefines(d: Disk, recs: History, s: D.State, x: Input, pos: nat)
    requires Refines(d, recs, s) && x.Answer? && x.index < |d.peers|
    requires Names(recs, x.target, x.id, pos)
    requires d.peers[x.index].dc.client == s.conns[x.index].client
    ensures Refines(DoAnswer(d, x), recs, D.DoPong(s, D.Pong(x.index, x.target, pos)))
  {
    var k := (x.target, s.conns[x.index].client);
    NamesPoints(recs, x.target, x.id, pos);
    IdsUpdated(d.ids, recs, s.cursors, k, x.id, pos + 1);
    PongIs(s, x.index, x.target, pos);
    IdsReplaced(d, recs, s, d.ids[k := x.id], s.cursors[k := pos + 1],
                D.DoPong(s, D.Pong(x.index, x.target, pos)).birth);
  }

  lemma LeaveRefines(d: Disk, recs: History, s: D.State, x: Input)
    requires Refines(d, recs, s) && x.Leave? && x.index < |d.peers|
    ensures Refines(DoLeave(d, x), recs, D.DoDisconnect(s, D.Disconnect(x.index)))
  {
    assert PeerAgrees(recs, d.peers[x.index], s.conns[x.index]);
    var d', s' := DoLeave(d, x), D.DoDisconnect(s, D.Disconnect(x.index));
    assert d'.receipts.Keys == s'.receipts.Keys;
  }

  lemma RebootRefines(d: Disk, recs: History, s: D.State, x: Input)
    requires Refines(d, recs, s) && x.Reboot?
    ensures Refines(DoReboot(d, x), recs, D.DoRestart(s, D.Restart(x.clean)))
  {
    NewIff(d, recs, s, "");
    var d', s' := DoReboot(d, x), D.DoRestart(s, D.Restart(x.clean));
    assert d'.ids.Keys == s'.cursors.Keys;
  }

  // ----- Every input -----

  /** The event of the protocol that an input is. */
  ghost predicate Matches(d: Disk, recs: History, s: D.State, x: Input, e: D.Event) {
    match x
    case Say(_, _, _, _, _, _, _, _, _) => e == Produced(x)
    case Answer(i, t, id) => e.Pong? && e.index == i && e.target == t && Names(recs, t, id, e.pos)
    case Join(_, _, _, _, _, _) => IdsAgree(d.ids, recs, s.cursors) && e == Connected(d, recs, s, x)
    case Leave(i) => e == D.Disconnect(i)
    case Detach(t, b) => e == D.SetDetached(t, b)
    case Reboot(clean) => e == D.Restart(clean)
  }

  /** It is the only one. */
  lemma MatchesOne(d: Disk, recs: History, s: D.State, x: Input, e: D.Event, e': D.Event)
    requires Matches(d, recs, s, x, e) && Matches(d, recs, s, x, e')
    ensures e == e'
  {
    if x.Answer? {
      NamesOne(recs, x.target, x.id, e.pos, e'.pos);
    }
  }

  lemma SayStep(d: Disk, recs: History, s: D.State, x: Input, at: nat)
    requires Refines(d, recs, s) && x.Say? && Sayable(x.rec)
    ensures Refines(DoSay(d, x, at), Said(d, recs, x), D.DoProduce(s, Produced(x)))
  {
    if Kept(x) {
      assert TargetAgrees(FilesOf(d.files, x.target), RecsOf(recs, x.target), D.LogOf(s.log, x.target));
      LineLogged(FilesOf(d.files, x.target), RecsOf(recs, x.target), D.LogOf(s.log, x.target), x.rec, x.storableTag,
                 x.ours);
    }
    SayRefines(d, recs, s, x, at);
  }

  /** The event belongs to the input, and their steps lead to states that belong together. */
  ghost predicate Simulates(d: Disk, recs: History, s: D.State, x: Input, at: nat, e: D.Event) {
    Matches(d, recs, s, x, e) && D.Enabled(s, e) && Refines(Step(d, x, at), Said(d, recs, x), D.Step(s, e))
  }

  lemma SaySimulates(d: Disk, recs: History, s: D.State, x: Input, at: nat)
    requires Refines(d, recs, s) && x.Say? && Sayable(x.rec)
    ensures Simulates(d, recs, s, x, at, Produced(x))
  {
    SayStep(d, recs, s, x, at);
  }

  lemma AnswerSimulates(d: Disk, recs: History, s: D.State, x: Input, at: nat) returns (e: D.Event)
    requires Refines(d, recs, s) && x.Answer? && Answerable(d, x.index, x.target, x.id)
    ensures Simulates(d, recs, s, x, at, e)
  {
    var pos := PingedAt(d, recs, s, x);
    e := D.Pong(x.index, x.target, pos);
    AnswerRefines(d, recs, s, x, pos);
  }

  lemma JoinSimulates(d: Disk, recs: History, s: D.State, x: Input, at: nat)
    requires Refines(d, recs, s) && !s.store.complete && x.Join? && x.dc.pinged == {}
    ensures Simulates(d, recs, s, x, at, Connected(d, recs, s, x))
  {
    JoinRefines(d, recs, s, x, at);
  }

  lemma LeaveSimulates(d: Disk, recs: History, s: D.State, x: Input, at: nat)
    requires x.Leave? && x.index < |d.peers| == |s.conns|
    requires Refines(DoLeave(d, x), recs, D.DoDisconnect(s, D.Disconnect(x.index)))
    ensures Simulates(d, recs, s, x, at, D.Disconnect(x.index))
  {
  }

  lemma RebootSimulates(d: Disk, recs: History, s: D.State, x: Input, at: nat)
    requires x.Reboot? && s.store.persistent && Refines(DoReboot(d, x), recs, D.DoRestart(s, D.Restart(x.clean)))
    ensures Simulates(d, recs, s, x, at, D.Restart(x.clean))
  {
  }

  lemma DetachSimulates(d: Disk, recs: History, s: D.State, x: Input, at: nat)
    requires Refines(d, recs, s) && x.Detach?
    ensures Simulates(d, recs, s, x, at, D.SetDetached(x.target, x.detached))
  {
  }

  /** Every step on disk is the step of the protocol that belongs to the input. */
  lemma StepRefines(d: Disk, recs: History, s: D.State, x: Input, at: nat) returns (e: D.Event)
    requires Refines(d, recs, s) && !s.store.complete && Enabled(d, x)
    ensures Simulates(d, recs, s, x, at, e)
  {
    match x
    case Say(_, _, _, _, _, _, _, _, _) =>
      e := Produced(x);
      SaySimulates(d, recs, s, x, at);
    case Answer(i, t, _) =>
      e := AnswerSimulates(d, recs, s, x, at);
    case Join(_, _, _, _, _, _) =>
      e := Connected(d, recs, s, x);
      JoinSimulates(d, recs, s, x, at);
    case Leave(i) =>
      e := D.Disconnect(i);
      LeaveRefines(d, recs, s, x);
      LeaveSimulates(d, recs, s, x, at);
    case Detach(t, b) =>
      e := D.SetDetached(t, b);
      DetachSimulates(d, recs, s, x, at);
    case Reboot(clean) =>
      e := D.Restart(clean);
      RebootRefines(d, recs, s, x);
      RebootSimulates(d, recs, s, x, at);
  }
}
