/**
 Labeled responses: everything sent while handling a labelled command is held back, batched and closed so
 that the client can attribute it. The client's own reading of the wire, which knows nothing of how the
 bouncer buffers or numbers its batches, gives back exactly what was sent, under exactly one label.
 */
module LabeledResponse {
  import opened Text

  datatype Message = Message(tags: map<string, string>, prefix: Option<string>, command: string, params: seq<string>)

  function Get(tags: map<string, string>, name: string): string {
    if name in tags then tags[name] else ""
  }

  // ----- Batch references -----

  function Digit(n: nat): char
    requires n < 10
  {
    "0123456789"[n]
  }

  /** The decimal form of a number, as %v prints it. */
  function Decimal(n: nat): (s: string)
    ensures s != ""
  {
    if n < 10 then [Digit(n)] else Decimal(n / 10) + [Digit(n % 10)]
  }

  lemma {:induction false} DecimalInjective(a: nat, b: nat)
    requires Decimal(a) == Decimal(b)
    ensures a == b
  {
    var s := Decimal(a);
    if a >= 10 && b >= 10 {
      assert Decimal(a / 10) == s[..|s| - 1] == Decimal(b / 10);
      DecimalInjective(a / 10, b / 10);
    }
    assert Digit(a % 10) == s[|s| - 1] == Digit(b % 10);
  }

  // ----- What a client is allowed to see -----

  predicate IsNumeric(command: string) {
    |command| == 3 && forall i | 0 <= i < 3 :: '0' <= command[i] <= '9'
  }

  /** The capability a command needs, if any. */
  function Needs(command: string): Option<string> {
    match command
    case "SETNAME" => Some("setname")
    case "CHGHOST" => Some("chghost")
    case "AWAY" => Some("away-notify")
    case "ACCOUNT" => Some("account-notify")
    case "MARKREAD" => Some("draft/read-marker")
    case "READ" => Some("soju.im/read")
    case "METADATA" => Some("draft/metadata-2")
    case "REDACT" => Some("draft/message-redaction")
    case _ => None
  }

  predicate TagSupported(caps: set<string>, name: string) {
    || (name == "time" && "server-time" in caps)
    || (name == "account" && "account-tag" in caps)
    || (name == "batch" && "batch" in caps)
  }

  function FilterTags(caps: set<string>, tags: map<string, string>): map<string, string> {
    var kept := if "message-tags" in caps then tags else map k | k in tags && TagSupported(caps, k) :: tags[k];
    if "batch" !in caps && Get(kept, "batch") != "" then kept - {"batch"} else kept
  }

  function FilterPrefix(server: string, command: string, prefix: Option<string>): Option<string> {
    var p := if prefix == Some("*") then None else prefix;
    if p.None? && IsNumeric(command) then Some(server) else p
  }

  function FilterParams(caps: set<string>, command: string, params: seq<string>): seq<string> {
    if command == "JOIN" && "extended-join" !in caps && |params| > 1 then params[..1] else params
  }

  predicate Dropped(caps: set<string>, command: string) {
    || (command == "TAGMSG" && "message-tags" !in caps)
    || (Needs(command).Some? && Needs(command).value !in caps)
  }

  /** The first half of SendMessage: what the client's capabilities leave of a message. */
  function Filter(caps: set<string>, server: string, m: Message): Option<Message> {
    if Dropped(caps, m.command) then None
    else Some(Message(FilterTags(caps, m.tags), FilterPrefix(server, m.command, m.prefix), m.command,
                      FilterParams(caps, m.command, m.params)))
  }

  /** What a connection lets through: batches or not, and what is left of a message. */
  datatype Config = Config(batches: bool, keep: Message -> Option<Message>)

  function ConfigOf(caps: set<string>, server: string): Config {
    Config("batch" in caps, (m: Message) => Filter(caps, server, m))
  }

  // ----- Programs of sends -----

  /**
   What a command handler sends: single messages and batches, nested to any depth. Those with `inside` set
   carry the reference of the batch around them.
   */
  datatype Send =
    | One(msg: Message, inside: bool)
    | Batch(kind: Kind, inside: bool, body: seq<Send>)

  datatype Kind = Kind(typ: string, params: seq<string>)

  const LABELED := Kind("labeled-response", [])

  /** A message that leaves batches and labels to the connection. */
  predicate Plain(m: Message) {
    m.command != "BATCH" && "batch" !in m.tags && "label" !in m.tags
  }

  predicate PlainSend(send: Send)
    decreases send
  {
    match send
    case One(m, _) => Plain(m)
    case Batch(_, _, body) => AllPlain(body)
  }

  predicate AllPlain(sends: seq<Send>)
    decreases sends
  {
    sends == [] || (PlainSend(sends[0]) && AllPlain(sends[1..]))
  }

  /** The tags of something sent inside a batch. */
  function Inside(tags: map<string, string>, inside: bool, parent: string): map<string, string> {
    if inside && parent != "" then tags["batch" := parent] else tags
  }

  function OpenMessage(kind: Kind, ref: string, inside: bool, parent: string): Message {
    Message(Inside(map[], inside, parent), None, "BATCH", ["+" + ref, kind.typ] + kind.params)
  }

  function CloseMessage(ref: string): Message {
    Message(map[], None, "BATCH", ["-" + ref])
  }

  /** The filter treats a message inside a batch like the same message outside, up to the batch tag. */
  predicate KeepsAlike(cfg: Config, m: Message, inside: bool, parent: string) {
    var wrapped := m.(tags := Inside(m.tags, inside, parent));
    match cfg.keep(m)
    case None => cfg.keep(wrapped) == None
    case Some(k) =>
      Plain(k) && cfg.keep(wrapped) == Some(k.(tags := Inside(k.tags, inside && cfg.batches, parent)))
  }

  /** A client that knows batches is sent their brackets as they are. */
  predicate KeepsBrackets(cfg: Config, kind: Kind, ref: string, inside: bool, parent: string) {
    cfg.batches ==>
      var first := OpenMessage(kind, ref, inside, parent);
      cfg.keep(first) == Some(first) && cfg.keep(CloseMessage(ref)) == Some(CloseMessage(ref))
  }

  ghost predicate Fair(cfg: Config) {
    && (forall m, inside, parent :: Plain(m) ==> KeepsAlike(cfg, m, inside, parent))
    && (forall kind, ref, inside, parent :: KeepsBrackets(cfg, kind, ref, inside, parent))
  }

  lemma TagsAlike(caps: set<string>, tags: map<string, string>, inside: bool, parent: string)
    requires "batch" !in tags && "label" !in tags
    ensures FilterTags(caps, Inside(tags, inside, parent)) ==
            Inside(FilterTags(caps, tags), inside && "batch" in caps, parent)
    ensures "batch" !in FilterTags(caps, tags) && "label" !in FilterTags(caps, tags)
  {
  }

  /** The filter of SendMessage is such a filter, whatever the client's capabilities. */
  lemma FilterFair(caps: set<string>, server: string)
    ensures Fair(ConfigOf(caps, server))
  {
    var cfg := ConfigOf(caps, server);
    forall m, inside, parent | Plain(m)
      ensures KeepsAlike(cfg, m, inside, parent)
    {
      TagsAlike(caps, m.tags, inside, parent);
    }
    forall kind, ref, inside, parent
      ensures KeepsBrackets(cfg, kind, ref, inside, parent)
    {
      BracketsKept(caps, server, kind, ref, inside, parent);
    }
  }

  lemma BracketsKept(caps: set<string>, server: string, kind: Kind, ref: string, inside: bool, parent: string)
    ensures KeepsBrackets(ConfigOf(caps, server), kind, ref, inside, parent)
  {
    TagsAlike(caps, map[], inside, parent);
    assert FilterTags(caps, map[]) == map[];
  }

  // ----- What is sent, before anything is held back -----

  /** The reference counter, the reference of the labelled batch (zero if none yet), and what was sent. */
  datatype Trace = Trace(labelText: string, ref: nat, batch: nat, sent: seq<Message>)

  /** One message that passed the filter. The second one under a label takes a reference for its batch. */
  function Pass(t: Trace, m: Message): Trace {
    if t.labelText != "" && |t.sent| == 1 then t.(ref := t.ref + 1, batch := t.ref + 1, sent := t.sent + [m])
    else t.(sent := t.sent + [m])
  }

  function Submit(cfg: Config, t: Trace, m: Message): Trace {
    match cfg.keep(m)
    case Some(kept) => Pass(t, kept)
    case None => t
  }

  function PlayOne(cfg: Config, t: Trace, send: Send, parent: string): Trace
    decreases send
  {
    match send
    case One(m, inside) => Submit(cfg, t, m.(tags := Inside(m.tags, inside, parent)))
    case Batch(kind, inside, body) =>
      var ref := Decimal(t.ref + 1);
      var t0 := t.(ref := t.ref + 1);
      if cfg.batches then
        Pass(Play(cfg, Pass(t0, OpenMessage(kind, ref, inside, parent)), body, ref), CloseMessage(ref))
      else Play(cfg, t0, body, ref)
  }

  function Play(cfg: Config, t: Trace, sends: seq<Send>, parent: string): Trace
    decreases sends
  {
    if sends == [] then t
    else Play(cfg, PlayOne(cfg, t, sends[0], parent), sends[1..], parent)
  }

  // ----- What goes over the wire -----

  function Tag(m: Message, batch: string): Message {
    if Get(m.tags, "batch") == "" then m.(tags := m.tags["batch" := batch]) else m
  }

  function TagAll(ms: seq<Message>, batch: string): seq<Message> {
    seq(|ms|, i requires 0 <= i < |ms| => Tag(ms[i], batch))
  }

  function LabelOpen(labelText: string, batch: string): Message {
    OpenMessage(LABELED, batch, false, "").(tags := map["label" := labelText])
  }

  /** What has been written so far. */
  function Written(t: Trace): seq<Message> {
    if t.labelText == "" then t.sent
    else if |t.sent| < 2 then []
    else [LabelOpen(t.labelText, Decimal(t.batch))] + TagAll(t.sent, Decimal(t.batch))
  }

  /** What FlushBatch adds. */
  function Closing(t: Trace): seq<Message> {
    if t.labelText == "" then []
    else if |t.sent| == 0 then [Message(map["label" := t.labelText], None, "ACK", [])]
    else if |t.sent| == 1 then [t.sent[0].(tags := t.sent[0].tags["label" := t.labelText])]
    else [CloseMessage(Decimal(t.batch))]
  }

  function Response(t: Trace): seq<Message> {
    Written(t) + Closing(t)
  }

  // ----- The connection -----

  class Downstream {
    const caps: set<string>
    const server: string
    const cfg: Config := ConfigOf(caps, server)
    var lastBatchRef: nat
    // The label context of the command being handled.
    var labelText: string
    var batch: string
    var pendingMsg: Option<Message>
    // Everything handed to the socket.
    var out: seq<Message>

    constructor (caps: set<string>, server: string)
      ensures this.caps == caps && this.server == server && lastBatchRef == 0 && out == [] && labelText == ""
    {
      this.caps, this.server := caps, server;
      lastBatchRef, labelText, batch, pendingMsg, out := 0, "", "", None, [];
    }

    /** The held-back state stands for a trace whose messages started after `base`. */
    ghost predicate Shows(base: seq<Message>, t: Trace)
      reads this
    {
      && t.labelText == labelText && t.ref == lastBatchRef
      && out == base + Written(t)
      && pendingMsg == (if labelText != "" && |t.sent| == 1 then Some(t.sent[0]) else None)
      && batch == (if labelText != "" && |t.sent| >= 2 then Decimal(t.batch) else "")
    }

    method Begin(labelText: string)
      modifies this
      ensures Shows(old(out), Trace(labelText, old(lastBatchRef), 0, []))
    {
      this.labelText, batch, pendingMsg := labelText, "", None;
      assert out + [] == out;
    }

    method Write(m: Message)
      modifies `out
      ensures out == old(out) + [m]
    {
      out := out + [m];
    }

    method SendMessage(m: Message, ghost base: seq<Message>, ghost t: Trace)
      requires Shows(base, t)
      modifies this
      ensures Shows(base, Submit(cfg, t, m))
    {
      var filtered := cfg.keep(m);
      if filtered.None? {
        return;
      }
      var msg := filtered.value;
      WrittenPass(base, t, msg);
      if labelText != "" {
        if pendingMsg.Some? {
          lastBatchRef := lastBatchRef + 1;
          batch := Decimal(lastBatchRef);
          Write(LabelOpen(labelText, batch));
          Write(Tag(pendingMsg.value, batch));
          pendingMsg := None;
        }
        if batch != "" {
          Write(Tag(msg, batch));
        } else {
          pendingMsg := Some(msg);
        }
      } else {
        Write(msg);
      }
    }

    method SendBatch(kind: Kind, inside: bool, parent: string, body: seq<Send>, ghost base: seq<Message>,
                     ghost t: Trace)
      requires Shows(base, t)
      modifies this
      ensures Shows(base, PlayOne(cfg, t, Batch(kind, inside, body), parent))
      decreases body, 1
    {
      BracketsKept(caps, server, kind, Decimal(t.ref + 1), inside, parent);
      lastBatchRef := lastBatchRef + 1;
      var ref := Decimal(lastBatchRef);
      ghost var t1 := t.(ref := t.ref + 1);
      if cfg.batches {
        SendMessage(OpenMessage(kind, ref, inside, parent), base, t1);
        t1 := Pass(t1, OpenMessage(kind, ref, inside, parent));
      }
      SendAll(body, ref, base, t1);
      if cfg.batches {
        SendMessage(CloseMessage(ref), base, Play(cfg, t1, body, ref));
      }
    }

    /** A command handler: each of its sends in turn. */
    method SendAll(sends: seq<Send>, parent: string, ghost base: seq<Message>, ghost t: Trace)
      requires Shows(base, t)
      modifies this
      ensures Shows(base, Play(cfg, t, sends, parent))
      decreases sends, 0
    {
      if sends == [] {
        return;
      }
      match sends[0] {
        case One(m, inside) =>
          SendMessage(m.(tags := Inside(m.tags, inside, parent)), base, t);
        case Batch(kind, inside, body) =>
          SendBatch(kind, inside, parent, body, base, t);
      }
      SendAll(sends[1..], parent, base, PlayOne(cfg, t, sends[0], parent));
    }

    method FlushBatch(ghost base: seq<Message>, ghost t: Trace)
      requires Shows(base, t)
      modifies this
      ensures out == base + Response(t) && lastBatchRef == t.ref
    {
      Assoc(base, Written(t), Closing(t));
      if labelText != "" {
        if pendingMsg.Some? {
          var m := pendingMsg.value;
          Write(m.(tags := m.tags["label" := labelText]));
        } else if batch != "" {
          Write(CloseMessage(batch));
        } else {
          Write(Message(map["label" := labelText], None, "ACK", []));
        }
      } else {
        assert out + [] == out;
      }
    }

    /**
     handleMessage: one command of the client, with or without a label. A handler error that is no reply to the client
     ends the connection before the response is completed.
     */
    method Handle(labelText: string, sends: seq<Send>, fatal: bool) returns (err: bool)
      modifies this
      ensures var t := Play(cfg, Trace(labelText, old(lastBatchRef), 0, []), sends, "");
              && out == old(out) + (if fatal then Written(t) else Response(t))
              && lastBatchRef == t.ref && err == fatal
    {
      ghost var base, t := out, Trace(labelText, lastBatchRef, 0, []);
      Begin(labelText);
      SendAll(sends, "", base, t);
      if fatal {
        return true;
      }
      FlushBatch(base, Play(cfg, t, sends, ""));
      err := false;
    }
  }

  lemma TagAllSnoc(ms: seq<Message>, m: Message, batch: string)
    ensures TagAll(ms + [m], batch) == TagAll(ms, batch) + [Tag(m, batch)]
  {
  }

  /** How the written messages grow with one more message. */
  lemma WrittenPass(base: seq<Message>, t: Trace, m: Message)
    ensures var w := Written(Pass(t, m));
            && (t.labelText == "" ==> base + w == base + Written(t) + [m])
            && (t.labelText != "" && |t.sent| == 0 ==> base + w == base + Written(t))
            && (t.labelText != "" && |t.sent| == 1 ==>
                  var b := Decimal(t.ref + 1);
                  base + w == base + Written(t) + [LabelOpen(t.labelText, b)] + [Tag(t.sent[0], b)] + [Tag(m, b)])
            && (t.labelText != "" && |t.sent| >= 2 ==>
                  base + w == base + Written(t) + [Tag(m, Decimal(t.batch))])
  {
    if t.labelText == "" {
      Assoc(base, t.sent, [m]);
    } else if |t.sent| == 1 {
      WrittenSecond(base, t, m);
    } else if |t.sent| >= 2 {
      var b := Decimal(t.batch);
      TagAllSnoc(t.sent, m, b);
      Assoc([LabelOpen(t.labelText, b)], TagAll(t.sent, b), [Tag(m, b)]);
      Assoc(base, Written(t), [Tag(m, b)]);
    }
  }

  lemma WrittenSecond(base: seq<Message>, t: Trace, m: Message)
    requires t.labelText != "" && |t.sent| == 1
    ensures var b := Decimal(t.ref + 1);
            base + Written(Pass(t, m)) == base + [] + [LabelOpen(t.labelText, b)] + [Tag(t.sent[0], b)] + [Tag(m, b)]
  {
    var b := Decimal(t.ref + 1);
    assert TagAll(t.sent + [m], b) == [Tag(t.sent[0], b), Tag(m, b)];
    assert Written(Pass(t, m)) == [LabelOpen(t.labelText, b), Tag(t.sent[0], b), Tag(m, b)];
  }

  // ----- The client's reading -----

  /** What a client makes of one message: batches are named by what they are and where they stand, not by reference. */
  datatype Event =
    | Opened(path: seq<Kind>, kind: Kind, mark: string)
    | Closed(path: seq<Kind>)
    | Said(path: seq<Kind>, msg: Message, mark: string)

  /** The open batches, innermost last, what each stands for, and every reference seen so far. */
  datatype Client = Client(open: seq<string>, paths: map<string, seq<Kind>>, used: set<string>, events: seq<Event>)

  /**
   One message, by the rules of the IRCv3 batch specification: a batch tag names an open batch, a new batch
   has a reference not seen before, and the innermost batch is closed first.
   */
  function ReadOne(c: Client, m: Message): Option<Client> {
    var tag := Get(m.tags, "batch");
    if tag != "" && tag !in c.paths then None
    else
      var path := if tag == "" then [] else c.paths[tag];
      if m.command == "BATCH" then ReadBatch(c, m, path)
      else Some(c.(events := c.events + [Said(path, m.(tags := m.tags - {"batch", "label"}), Get(m.tags, "label"))]))
  }

  function ReadBatch(c: Client, m: Message, path: seq<Kind>): Option<Client> {
    if |m.params| >= 2 && HasPrefix(m.params[0], "+") then
      ReadOpen(c, m.params[0][1..], Kind(m.params[1], m.params[2..]), path, Get(m.tags, "label"))
    else if |m.params| == 1 && HasPrefix(m.params[0], "-") then ReadClose(c, m.params[0][1..])
    else None
  }

  function ReadOpen(c: Client, ref: string, kind: Kind, path: seq<Kind>, mark: string): Option<Client> {
    if ref == "" || ref in c.used then None
    else Some(Client(c.open + [ref], c.paths[ref := path + [kind]], c.used + {ref},
                     c.events + [Opened(path, kind, mark)]))
  }

  function ReadClose(c: Client, ref: string): Option<Client> {
    if |c.open| == 0 || c.open[|c.open| - 1] != ref || ref !in c.paths then None
    else Some(c.(open := c.open[..|c.open| - 1], paths := c.paths - {ref}, events := c.events + [Closed(c.paths[ref])]))
  }

  function Read(c: Client, ms: seq<Message>): Option<Client>
    decreases ms
  {
    if ms == [] then Some(c)
    else
      match ReadOne(c, ms[0])
      case None => None
      case Some(next) => Read(next, ms[1..])
  }

  lemma {:induction false} ReadConcat(c: Client, a: seq<Message>, b: seq<Message>)
    requires Read(c, a).Some?
    ensures Read(c, a + b) == Read(Read(c, a).value, b)
    decreases a
  {
    if a == [] {
      assert a + b == b;
    } else {
      assert (a + b)[1..] == a[1..] + b && (a + b)[0] == a[0];
      ReadConcat(ReadOne(c, a[0]).value, a[1..], b);
    }
  }

  // ----- What the client ought to read -----

  function Expected(cfg: Config, sends: seq<Send>, path: seq<Kind>): seq<Event>
    decreases sends
  {
    if sends == [] then [] else ExpectedOne(cfg, sends[0], path) + Expected(cfg, sends[1..], path)
  }

  /** A message that survives the filter, or a batch around its body; a client without batches sees the bodies only. */
  function ExpectedOne(cfg: Config, send: Send, path: seq<Kind>): seq<Event>
    decreases send
  {
    match send
    case One(m, inside) =>
      (match cfg.keep(m)
       case Some(kept) => [Said(if inside then path else [], kept, "")]
       case None => [])
    case Batch(kind, inside, body) =>
      if cfg.batches then
        var p := if inside then path else [];
        [Opened(p, kind, "")] + Expected(cfg, body, p + [kind]) + [Closed(p + [kind])]
      else Expected(cfg, body, [])
  }

  function Lift(top: seq<Kind>, e: Event): Event {
    match e
    case Opened(p, kind, mark) => Opened(top + p, kind, mark)
    case Closed(p) => Closed(top + p)
    case Said(p, m, mark) => Said(top + p, m, mark)
  }

  function LiftAll(top: seq<Kind>, es: seq<Event>): seq<Event> {
    seq(|es|, i requires 0 <= i < |es| => Lift(top, es[i]))
  }

  lemma LiftConcat(top: seq<Kind>, a: seq<Event>, b: seq<Event>)
    ensures LiftAll(top, a + b) == LiftAll(top, a) + LiftAll(top, b)
  {
  }

  // ----- Traces grow -----

  ghost predicate Sound(t: Trace) {
    && (t.batch != 0 <==> t.labelText != "" && |t.sent| >= 2)
    && t.batch <= t.ref
  }

  ghost predicate Grows(t: Trace, u: Trace) {
    && u.labelText == t.labelText && t.ref <= u.ref && t.sent <= u.sent
    && (t.batch != 0 ==> u.batch == t.batch)
    && (t.batch == 0 && u.batch != 0 ==> t.ref < u.batch <= u.ref)
  }

  lemma {:induction false} PlayOneGrows(cfg: Config, t: Trace, send: Send, parent: string)
    requires Sound(t)
    ensures Sound(PlayOne(cfg, t, send, parent)) && Grows(t, PlayOne(cfg, t, send, parent))
    decreases send
  {
    if send.Batch? {
      var ref := Decimal(t.ref + 1);
      var t0 := t.(ref := t.ref + 1);
      if cfg.batches {
        PlayGrows(cfg, Pass(t0, OpenMessage(send.kind, ref, send.inside, parent)), send.body, ref);
      } else {
        PlayGrows(cfg, t0, send.body, ref);
      }
    }
  }

  lemma {:induction false} PlayGrows(cfg: Config, t: Trace, sends: seq<Send>, parent: string)
    requires Sound(t)
    ensures Sound(Play(cfg, t, sends, parent)) && Grows(t, Play(cfg, t, sends, parent))
    decreases sends
  {
    if sends != [] {
      PlayOneGrows(cfg, t, sends[0], parent);
      PlayGrows(cfg, PlayOne(cfg, t, sends[0], parent), sends[1..], parent);
    }
  }

  // ----- Reading what a trace wrote -----

  /** Where sends take place: under which label and batch, and inside which batch of their own. */
  datatype Scope = Scope(wire: Wire, parent: string, path: seq<Kind>)

  datatype Wire = Wire(labelText: string, batch: nat)

  function Top(w: Wire): seq<Kind> {
    if w.labelText == "" then [] else [LABELED]
  }

  function Mark(w: Wire, m: Message): Message {
    if w.labelText == "" then m else Tag(m, Decimal(w.batch))
  }

  function MarkAll(w: Wire, ms: seq<Message>): seq<Message> {
    seq(|ms|, i requires 0 <= i < |ms| => Mark(w, ms[i]))
  }

  /** The client has open what the sends rely on. */
  ghost predicate Stands(cfg: Config, c: Client, sc: Scope) {
    && (sc.wire.labelText != "" ==> Decimal(sc.wire.batch) in c.paths && c.paths[Decimal(sc.wire.batch)] == [LABELED])
    && (if sc.parent == "" || !cfg.batches then sc.path == []
        else sc.parent in c.paths && c.paths[sc.parent] == Top(sc.wire) + sc.path)
  }

  /** The references given out so far. */
  ghost function Refs(n: nat): set<string> {
    if n == 0 then {Decimal(0)} else Refs(n - 1) + {Decimal(n)}
  }

  lemma {:induction false} RefsGrow(n: nat, m: nat)
    requires n <= m
    ensures Refs(n) <= Refs(m)
  {
    if n < m {
      RefsGrow(n, m - 1);
    }
  }

  lemma {:induction false} RefsOnly(n: nat, k: nat)
    requires Decimal(k) in Refs(n)
    ensures k <= n
  {
    if Decimal(k) == Decimal(n) {
      DecimalInjective(k, n);
    } else {
      RefsOnly(n - 1, k);
    }
  }

  /** The client has seen no reference but those given out and that of the labelled batch. */
  ghost predicate Seen(c: Client, ref: nat, batch: nat) {
    c.paths.Keys <= c.used <= Refs(ref) + {Decimal(batch)}
  }

  lemma FreshRef(c: Client, ref: nat, batch: nat)
    requires Seen(c, ref, batch) && batch != ref + 1
    ensures Decimal(ref + 1) !in c.used
  {
    if Decimal(ref + 1) == Decimal(batch) {
      DecimalInjective(ref + 1, batch);
    } else if Decimal(ref + 1) in Refs(ref) {
      RefsOnly(ref, ref + 1);
    }
  }

  /** A tag names the batch around a message, or the labelled one, or none. */
  lemma WireTagsRead(cfg: Config, c: Client, sc: Scope, m: Message, inside: bool)
    requires Stands(cfg, c, sc) && "batch" !in m.tags && "label" !in m.tags
    ensures var w := Mark(sc.wire, m.(tags := Inside(m.tags, inside && cfg.batches, sc.parent)));
            && w.command == m.command && w.params == m.params && w.prefix == m.prefix
            && Get(w.tags, "label") == "" && w.tags - {"batch", "label"} == m.tags
            && (var tag := Get(w.tags, "batch");
                && (tag != "" ==> tag in c.paths)
                && Top(sc.wire) + (if inside then sc.path else []) == if tag == "" then [] else c.paths[tag])
  {
  }

  lemma OneReads(cfg: Config, c: Client, sc: Scope, m: Message, inside: bool)
    requires Stands(cfg, c, sc) && Plain(m)
    ensures ReadOne(c, Mark(sc.wire, m.(tags := Inside(m.tags, inside && cfg.batches, sc.parent)))) ==
            Some(c.(events := c.events + [Said(Top(sc.wire) + (if inside then sc.path else []), m, "")]))
  {
    WireTagsRead(cfg, c, sc, m, inside);
  }

  lemma OpenReads(cfg: Config, c: Client, sc: Scope, kind: Kind, ref: string, inside: bool)
    requires Stands(cfg, c, sc) && cfg.batches
    ensures ReadOne(c, Mark(sc.wire, OpenMessage(kind, ref, inside, sc.parent))) ==
            ReadOpen(c, ref, kind, Top(sc.wire) + (if inside then sc.path else []), "")
  {
    var m := OpenMessage(kind, ref, inside, sc.parent);
    WireTagsRead(cfg, c, sc, m.(tags := map[]), inside);
    assert m.params[0][1..] == ref && m.params[2..] == kind.params;
  }

  lemma CloseReads(cfg: Config, c: Client, sc: Scope, ref: string)
    requires Stands(cfg, c, sc)
    ensures ReadOne(c, Mark(sc.wire, CloseMessage(ref))) == ReadClose(c, ref)
  {
    assert CloseMessage(ref).params[0][1..] == ref;
  }

  /** Reading the messages leaves the client where it was, with these events added. */
  ghost predicate Reads(c: Client, ms: seq<Message>, d: Client, es: seq<Event>) {
    && Read(c, ms) == Some(d)
    && d.open == c.open && d.paths == c.paths && c.used <= d.used && d.events == c.events + es
  }

  lemma ReadsThen(c: Client, a: seq<Message>, d: Client, x: seq<Event>, b: seq<Message>, e: Client, y: seq<Event>)
    requires Reads(c, a, d, x) && Reads(d, b, e, y)
    ensures Reads(c, a + b, e, x + y)
  {
    ReadConcat(c, a, b);
    Assoc(c.events, x, y);
  }

  /** What was sent between two traces, as it reaches the wire. */
  function Between(w: Wire, t: Trace, u: Trace): seq<Message>
    requires t.sent <= u.sent
  {
    MarkAll(w, u.sent[|t.sent|..])
  }

  lemma BetweenSplits(w: Wire, t: Trace, u: Trace, v: Trace)
    requires t.sent <= u.sent <= v.sent
    ensures Between(w, t, v) == Between(w, t, u) + Between(w, u, v)
  {
  }

  /** The batch of the scope is the one the trace ends with, or one still to come. */
  ghost predicate Agrees(w: Wire, t: Trace) {
    && w.labelText == t.labelText
    && (if t.labelText == "" then w.batch == 0 else if t.batch != 0 then w.batch == t.batch else w.batch > t.ref)
  }

  /** What is sent between two traces reads as these events. */
  ghost predicate Conveys(w: Wire, c: Client, t: Trace, u: Trace, d: Client, es: seq<Event>) {
    && t.sent <= u.sent && Seen(d, u.ref, w.batch)
    && Reads(c, Between(w, t, u), d, LiftAll(Top(w), es))
  }

  lemma ConveysThen(w: Wire, c: Client, t: Trace, u: Trace, d: Client, x: seq<Event>, v: Trace, e: Client,
                    y: seq<Event>)
    requires Conveys(w, c, t, u, d, x) && Conveys(w, d, u, v, e, y)
    ensures Conveys(w, c, t, v, e, x + y)
  {
    BetweenSplits(w, t, u, v);
    LiftConcat(Top(w), x, y);
    ReadsThen(c, Between(w, t, u), d, LiftAll(Top(w), x), Between(w, u, v), e, LiftAll(Top(w), y));
  }

  /** A reference taken sends nothing. */
  lemma ConveysFrom(w: Wire, c: Client, t: Trace, u: Trace, d: Client, es: seq<Event>)
    requires Conveys(w, c, t.(ref := t.ref + 1), u, d, es)
    ensures Conveys(w, c, t, u, d, es)
  {
  }

  /** Sends read as expected, wherever they stand. */
  lemma {:induction false} PlayReads(cfg: Config, c: Client, t: Trace, sends: seq<Send>, sc: Scope) returns (d: Client)
    requires Fair(cfg) && AllPlain(sends) && Sound(t) && Stands(cfg, c, sc) && Seen(c, t.ref, sc.wire.batch)
    requires Agrees(sc.wire, Play(cfg, t, sends, sc.parent))
    ensures Conveys(sc.wire, c, t, Play(cfg, t, sends, sc.parent), d, Expected(cfg, sends, sc.path))
    decreases sends, 0, 0
  {
    if sends == [] {
      d := c;
    } else {
      var u := PlayOne(cfg, t, sends[0], sc.parent);
      PlayOneGrows(cfg, t, sends[0], sc.parent);
      PlayGrows(cfg, u, sends[1..], sc.parent);
      var e := PlayOneReads(cfg, c, t, sends[0], sc);
      d := PlayReads(cfg, e, u, sends[1..], sc);
      ConveysThen(sc.wire, c, t, u, e, ExpectedOne(cfg, sends[0], sc.path),
                  Play(cfg, u, sends[1..], sc.parent), d, Expected(cfg, sends[1..], sc.path));
    }
  }

  lemma {:induction false} PlayOneReads(cfg: Config, c: Client, t: Trace, send: Send, sc: Scope) returns (d: Client)
    requires Fair(cfg) && PlainSend(send) && Sound(t) && Stands(cfg, c, sc) && Seen(c, t.ref, sc.wire.batch)
    requires Agrees(sc.wire, PlayOne(cfg, t, send, sc.parent))
    ensures Conveys(sc.wire, c, t, PlayOne(cfg, t, send, sc.parent), d, ExpectedOne(cfg, send, sc.path))
    ensures c.open == d.open && c.paths == d.paths
    decreases send
  {
    match send
    case One(m, inside) =>
      d := SingleReads(cfg, c, t, m, inside, sc);
    case Batch(kind, inside, body) =>
      if cfg.batches {
        d := BatchReads(cfg, c, t, kind, inside, body, sc);
      } else {
        d := BareReads(cfg, c, t, kind, inside, body, sc);
      }
  }

  /** For a client without batches only the body is sent. */
  lemma {:induction false} BareReads(cfg: Config, c: Client, t: Trace, kind: Kind, inside: bool, body: seq<Send>,
                                     sc: Scope)
    returns (d: Client)
    requires Fair(cfg) && AllPlain(body) && Sound(t) && Stands(cfg, c, sc) && Seen(c, t.ref, sc.wire.batch)
    requires !cfg.batches && Agrees(sc.wire, PlayOne(cfg, t, Batch(kind, inside, body), sc.parent))
    ensures Conveys(sc.wire, c, t, PlayOne(cfg, t, Batch(kind, inside, body), sc.parent), d,
                    ExpectedOne(cfg, Batch(kind, inside, body), sc.path))
    decreases body, 1
  {
    SeenLater(c, t.ref, sc.wire.batch, t.ref + 1);
    var t0, bare := t.(ref := t.ref + 1), sc.(parent := Decimal(t.ref + 1), path := []);
    assert PlayOne(cfg, t, Batch(kind, inside, body), sc.parent) == Play(cfg, t0, body, bare.parent);
    d := PlayReads(cfg, c, t0, body, bare);
    ConveysFrom(sc.wire, c, t, Play(cfg, t0, body, bare.parent), d, Expected(cfg, body, []));
  }

  lemma PassBetween(w: Wire, t: Trace, m: Message)
    ensures Between(w, t, Pass(t, m)) == [Mark(w, m)]
  {
  }

  lemma StepReads(c: Client, m: Message, e: Event)
    requires ReadOne(c, m) == Some(c.(events := c.events + [e]))
    ensures Reads(c, [m], c.(events := c.events + [e]), [e])
  {
    var d := c.(events := c.events + [e]);
    assert Read(d, []) == Some(d);
    assert [m][1..] == [];
  }

  lemma SingleReads(cfg: Config, c: Client, t: Trace, m: Message, inside: bool, sc: Scope) returns (d: Client)
    requires Fair(cfg) && Plain(m) && Stands(cfg, c, sc) && Seen(c, t.ref, sc.wire.batch)
    ensures Conveys(sc.wire, c, t, PlayOne(cfg, t, One(m, inside), sc.parent), d,
                    ExpectedOne(cfg, One(m, inside), sc.path))
  {
    assert KeepsAlike(cfg, m, inside, sc.parent);
    match cfg.keep(m)
    case None =>
      d := c;
    case Some(k) =>
      OneReads(cfg, c, sc, k, inside);
      var sent := k.(tags := Inside(k.tags, inside && cfg.batches, sc.parent));
      var e := Said(if inside then sc.path else [], k, "");
      StepReads(c, Mark(sc.wire, sent), Lift(Top(sc.wire), e));
      PassBetween(sc.wire, t, sent);
      assert LiftAll(Top(sc.wire), [e]) == [Lift(Top(sc.wire), e)];
      d := c.(events := c.events + [Lift(Top(sc.wire), e)]);
      SeenLater(d, t.ref, sc.wire.batch, Pass(t, sent).ref);
  }

  lemma SeenOpen(c: Client, ref: nat, batch: nat, d: Client)
    requires Seen(c, ref, batch) && d.used == c.used + {Decimal(ref + 1)}
    requires d.paths.Keys == c.paths.Keys + {Decimal(ref + 1)}
    ensures Seen(d, ref + 1, batch)
  {
  }

  lemma SeenLater(c: Client, ref: nat, batch: nat, later: nat)
    requires Seen(c, ref, batch) && ref <= later
    ensures Seen(c, later, batch)
  {
    RefsGrow(ref, later);
  }

  /** Opening a batch in a scope makes the scope of its body. */
  lemma OpenStands(cfg: Config, c: Client, sc: Scope, kind: Kind, ref: string, inside: bool, d: Client)
    requires Stands(cfg, c, sc) && c.paths.Keys <= c.used && ref != "" && ref !in c.used && cfg.batches
    requires ReadOpen(c, ref, kind, Top(sc.wire) + (if inside then sc.path else []), "") == Some(d)
    ensures Stands(cfg, d, sc.(parent := ref, path := (if inside then sc.path else []) + [kind]))
  {
    Assoc(Top(sc.wire), if inside then sc.path else [], [kind]);
  }

  /** A batch read from its opening through its body to its closing. */
  lemma BracketReads(c: Client, ref: string, kind: Kind, path: seq<Kind>, mark: string, d: Client,
                     first: Message, last: Message, ms: seq<Message>, e: Client, es: seq<Event>)
    requires c.paths.Keys <= c.used && ref !in c.used
    requires ReadOne(c, first) == ReadOpen(c, ref, kind, path, mark) == Some(d)
    requires Reads(d, ms, e, es)
    requires ReadOne(e, last) == ReadClose(e, ref)
    ensures ReadClose(e, ref).Some?
    ensures Reads(c, [first] + ms + [last], ReadClose(e, ref).value,
                  [Opened(path, kind, mark)] + es + [Closed(path + [kind])])
  {
    assert d.open[..|d.open| - 1] == c.open && d.paths - {ref} == c.paths;
    var f := ReadClose(e, ref).value;
    assert ([first] + ms)[1..] == ms;
    assert Read(c, [first] + ms) == Some(e);
    assert Read(e, [last]) == Some(f) by {
      assert [last][1..] == [];
    }
    ReadConcat(c, [first] + ms, [last]);
  }

  /** The opening of a batch takes the client into the scope of its body. */
  lemma BatchOpens(cfg: Config, c: Client, t: Trace, kind: Kind, inside: bool, sc: Scope)
    returns (d: Client)
    requires Stands(cfg, c, sc) && Seen(c, t.ref, sc.wire.batch) && cfg.batches && sc.wire.batch != t.ref + 1
    ensures var ref := Decimal(t.ref + 1);
            var p := if inside then sc.path else [];
            var first := OpenMessage(kind, ref, inside, sc.parent);
            && ref !in c.used &&
               ReadOne(c, Mark(sc.wire, first)) == ReadOpen(c, ref, kind, Top(sc.wire) + p, "") == Some(d)
            && Seen(d, Pass(t.(ref := t.ref + 1), first).ref, sc.wire.batch)
            && Stands(cfg, d, sc.(parent := ref, path := p + [kind]))
  {
    var ref := Decimal(t.ref + 1);
    FreshRef(c, t.ref, sc.wire.batch);
    OpenReads(cfg, c, sc, kind, ref, inside);
    d := ReadOpen(c, ref, kind, Top(sc.wire) + (if inside then sc.path else []), "").value;
    SeenOpen(c, t.ref, sc.wire.batch, d);
    SeenLater(d, t.ref + 1, sc.wire.batch, Pass(t.(ref := t.ref + 1), OpenMessage(kind, ref, inside, sc.parent)).ref);
    OpenStands(cfg, c, sc, kind, ref, inside, d);
  }

  /** The closing of a batch takes the client back. */
  lemma BatchCloses(cfg: Config, c: Client, kind: Kind, p: seq<Kind>, sc: Scope, t: Trace, first: Message, ref: string,
                    c1: Client, u: Trace, c2: Client, es: seq<Event>)
    returns (d: Client)
    requires Stands(cfg, c, sc) && ref !in c.used && c.paths.Keys <= c.used
    requires ReadOne(c, Mark(sc.wire, first)) == ReadOpen(c, ref, kind, Top(sc.wire) + p, "") == Some(c1)
    requires Conveys(sc.wire, c1, Pass(t, first), u, c2, es)
    ensures Conveys(sc.wire, c, t, Pass(u, CloseMessage(ref)), d, [Opened(p, kind, "")] + es + [Closed(p + [kind])])
  {
    var last := CloseMessage(ref);
    CloseReads(cfg, c2, sc, ref);
    BracketReads(c, ref, kind, Top(sc.wire) + p, "", c1, Mark(sc.wire, first), Mark(sc.wire, last),
                 Between(sc.wire, Pass(t, first), u), c2, LiftAll(Top(sc.wire), es));
    d := ReadClose(c2, ref).value;
    SeenLater(d, u.ref, sc.wire.batch, Pass(u, last).ref);
    BatchBetween(sc.wire, t, first, u, last);
    BatchEvents(Top(sc.wire), p, kind, es);
  }

  /** The trace of a batch up to its closing. */
  function BatchTrace(cfg: Config, t: Trace, kind: Kind, inside: bool, body: seq<Send>, parent: string): Trace {
    var ref := Decimal(t.ref + 1);
    Play(cfg, Pass(t.(ref := t.ref + 1), OpenMessage(kind, ref, inside, parent)), body, ref)
  }

  lemma BatchIs(cfg: Config, t: Trace, kind: Kind, inside: bool, body: seq<Send>, parent: string, path: seq<Kind>)
    requires cfg.batches
    ensures PlayOne(cfg, t, Batch(kind, inside, body), parent) ==
            Pass(BatchTrace(cfg, t, kind, inside, body, parent), CloseMessage(Decimal(t.ref + 1)))
    ensures var p := if inside then path else [];
            ExpectedOne(cfg, Batch(kind, inside, body), path) ==
            [Opened(p, kind, "")] + Expected(cfg, body, p + [kind]) + [Closed(p + [kind])]
  {
  }

  lemma {:induction false} BatchReads(cfg: Config, c: Client, t: Trace, kind: Kind, inside: bool, body: seq<Send>,
                                      sc: Scope)
    returns (d: Client)
    requires Fair(cfg) && AllPlain(body) && Sound(t) && Stands(cfg, c, sc) && Seen(c, t.ref, sc.wire.batch)
    requires cfg.batches && Agrees(sc.wire, PlayOne(cfg, t, Batch(kind, inside, body), sc.parent))
    ensures Conveys(sc.wire, c, t, PlayOne(cfg, t, Batch(kind, inside, body), sc.parent), d,
                    ExpectedOne(cfg, Batch(kind, inside, body), sc.path))
    decreases body, 1
  {
    BatchIs(cfg, t, kind, inside, body, sc.parent, sc.path);
    BatchNumber(cfg, t, kind, inside, body, sc);
    var p := if inside then sc.path else [];
    var c1, c2 := BodyReads(cfg, c, t, kind, inside, p, body, sc);
    var t0, ref := t.(ref := t.ref + 1), Decimal(t.ref + 1);
    var u := BatchTrace(cfg, t, kind, inside, body, sc.parent);
    d := BatchCloses(cfg, c, kind, p, sc, t0, OpenMessage(kind, ref, inside, sc.parent), ref, c1, u, c2,
                     Expected(cfg, body, p + [kind]));
    ConveysFrom(sc.wire, c, t, Pass(u, CloseMessage(ref)), d, ExpectedOne(cfg, Batch(kind, inside, body), sc.path));
  }

  /** A batch up to its closing: the client after the opening, and after the body. */
  lemma {:induction false} BodyReads(cfg: Config, c: Client, t: Trace, kind: Kind, inside: bool, p: seq<Kind>,
                                     body: seq<Send>, sc: Scope)
    returns (c1: Client, c2: Client)
    requires Fair(cfg) && AllPlain(body) && Stands(cfg, c, sc) && Seen(c, t.ref, sc.wire.batch)
    requires cfg.batches && sc.wire.batch != t.ref + 1 && p == if inside then sc.path else []
    requires Sound(Pass(t.(ref := t.ref + 1), OpenMessage(kind, Decimal(t.ref + 1), inside, sc.parent)))
    requires Agrees(sc.wire, BatchTrace(cfg, t, kind, inside, body, sc.parent))
    ensures var ref := Decimal(t.ref + 1);
            var first := OpenMessage(kind, ref, inside, sc.parent);
            && ref !in c.used
            && ReadOne(c, Mark(sc.wire, first)) == ReadOpen(c, ref, kind, Top(sc.wire) + p, "") == Some(c1)
            && Conveys(sc.wire, c1, Pass(t.(ref := t.ref + 1), first),
                       BatchTrace(cfg, t, kind, inside, body, sc.parent),
                       c2, Expected(cfg, body, p + [kind]))
    decreases body, 0, 1
  {
    var ref := Decimal(t.ref + 1);
    c1 := BatchOpens(cfg, c, t, kind, inside, sc);
    var first := OpenMessage(kind, ref, inside, sc.parent);
    c2 := PlayReads(cfg, c1, Pass(t.(ref := t.ref + 1), first), body, sc.(parent := ref, path := p + [kind]));
  }

  /** The labelled batch never takes the reference of a batch opened under it. */
  lemma BatchNumber(cfg: Config, t: Trace, kind: Kind, inside: bool, body: seq<Send>, sc: Scope)
    requires Sound(t)
    requires Agrees(sc.wire, Pass(BatchTrace(cfg, t, kind, inside, body, sc.parent), CloseMessage(Decimal(t.ref + 1))))
    ensures sc.wire.batch != t.ref + 1
    ensures Sound(Pass(t.(ref := t.ref + 1), OpenMessage(kind, Decimal(t.ref + 1), inside, sc.parent)))
    ensures Agrees(sc.wire, BatchTrace(cfg, t, kind, inside, body, sc.parent))
  {
    var ref := Decimal(t.ref + 1);
    PlayGrows(cfg, Pass(t.(ref := t.ref + 1), OpenMessage(kind, ref, inside, sc.parent)), body, ref);
  }

  lemma BatchBetween(w: Wire, t: Trace, first: Message, u: Trace, last: Message)
    requires Pass(t, first).sent <= u.sent
    ensures t.sent <= Pass(u, last).sent
    ensures Between(w, t, Pass(u, last)) ==
            [Mark(w, first)] + Between(w, Pass(t, first), u) + [Mark(w, last)]
  {
    PassBetween(w, t, first);
    PassBetween(w, u, last);
    BetweenSplits(w, t, Pass(t, first), u);
    BetweenSplits(w, t, u, Pass(u, last));
  }

  lemma BatchEvents(top: seq<Kind>, p: seq<Kind>, kind: Kind, es: seq<Event>)
    ensures LiftAll(top, [Opened(p, kind, "")] + es + [Closed(p + [kind])]) ==
            [Opened(top + p, kind, "")] + LiftAll(top, es) + [Closed(top + p + [kind])]
  {
    Assoc(top, p, [kind]);
  }

  // ----- The main theorem -----

  /** A client between commands: nothing open, and every reference it saw was given out. */
  ghost predicate Idle(c: Client, ref: nat) {
    c.open == [] && c.paths == map[] && Seen(c, ref, 0)
  }

  function WithMark(e: Event, mark: string): Event {
    match e
    case Opened(p, kind, _) => Opened(p, kind, mark)
    case Closed(p) => Closed(p)
    case Said(p, m, _) => Said(p, m, mark)
  }

  /** The events of a labelled command: one acknowledgement, one labelled message, or one labelled batch. */
  function Labelled(labelText: string, es: seq<Event>): seq<Event> {
    if labelText == "" then es
    else if |es| == 0 then [Said([], Message(map[], None, "ACK", []), labelText)]
    else if |es| == 1 then [WithMark(es[0], labelText)]
    else [Opened([], LABELED, labelText)] + LiftAll([LABELED], es) + [Closed([LABELED])]
  }

  // ----- Counting -----

  lemma {:induction false} PlayCounts(cfg: Config, t: Trace, sends: seq<Send>, parent: string, path: seq<Kind>)
    requires Fair(cfg) && AllPlain(sends)
    ensures |Play(cfg, t, sends, parent).sent| == |t.sent| + |Expected(cfg, sends, path)|
    decreases sends
  {
    if sends != [] {
      PlayOneCounts(cfg, t, sends[0], parent, path);
      PlayCounts(cfg, PlayOne(cfg, t, sends[0], parent), sends[1..], parent, path);
    }
  }

  lemma {:induction false} PlayOneCounts(cfg: Config, t: Trace, send: Send, parent: string, path: seq<Kind>)
    requires Fair(cfg) && PlainSend(send)
    ensures |PlayOne(cfg, t, send, parent).sent| == |t.sent| + |ExpectedOne(cfg, send, path)|
    decreases send
  {
    match send
    case One(m, inside) =>
      assert KeepsAlike(cfg, m, inside, parent);
    case Batch(kind, inside, body) =>
      var ref, t0 := Decimal(t.ref + 1), t.(ref := t.ref + 1);
      if cfg.batches {
        PlayCounts(cfg, Pass(t0, OpenMessage(kind, ref, inside, parent)), body, ref,
                   (if inside then path else []) + [kind]);
      } else {
        PlayCounts(cfg, t0, body, ref, []);
      }
  }

  function Unlabelled(t: Trace): Trace {
    t.(labelText := "", batch := 0)
  }

  /** Up to the first message a label changes nothing. */
  lemma {:induction false} FewAlike(cfg: Config, t: Trace, sends: seq<Send>, parent: string)
    requires Sound(t) && |Play(cfg, t, sends, parent).sent| <= 1
    ensures Play(cfg, Unlabelled(t), sends, parent) == Unlabelled(Play(cfg, t, sends, parent))
    decreases sends
  {
    if sends != [] {
      var u := PlayOne(cfg, t, sends[0], parent);
      PlayOneGrows(cfg, t, sends[0], parent);
      PlayGrows(cfg, u, sends[1..], parent);
      FewAlikeOne(cfg, t, sends[0], parent);
      FewAlike(cfg, u, sends[1..], parent);
    }
  }

  lemma {:induction false} FewAlikeOne(cfg: Config, t: Trace, send: Send, parent: string)
    requires Sound(t) && |PlayOne(cfg, t, send, parent).sent| <= 1
    ensures PlayOne(cfg, Unlabelled(t), send, parent) == Unlabelled(PlayOne(cfg, t, send, parent))
    decreases send
  {
    if send.Batch? {
      var ref, t0 := Decimal(t.ref + 1), t.(ref := t.ref + 1);
      if cfg.batches {
        PlayGrows(cfg, Pass(t0, OpenMessage(send.kind, ref, send.inside, parent)), send.body, ref);
        assert false;
      } else {
        FewAlike(cfg, t0, send.body, ref);
      }
    }
  }

  // ----- The answer -----

  /** Without a label, or before it matters, the client reads just what was sent. */
  lemma PlainAnswer(cfg: Config, c: Client, ref: nat, sends: seq<Send>) returns (d: Client)
    requires Fair(cfg) && AllPlain(sends) && Idle(c, ref)
    ensures var t := Play(cfg, Trace("", ref, 0, []), sends, "");
            Idle(d, t.ref) && Reads(c, t.sent, d, Expected(cfg, sends, []))
  {
    var t0 := Trace("", ref, 0, []);
    PlayGrows(cfg, t0, sends, "");
    var w := Wire("", 0);
    d := PlayReads(cfg, c, t0, sends, Scope(w, "", []));
    var t := Play(cfg, t0, sends, "");
    assert Between(w, t0, t) == t.sent;
    LiftNothing(Expected(cfg, sends, []));
  }

  lemma LiftNothing(es: seq<Event>)
    ensures LiftAll([], es) == es
  {
    forall i | 0 <= i < |es| ensures Lift([], es[i]) == es[i] {
      assert [] + es[i].path == es[i].path;
    }
  }

  lemma AckAnswer(c: Client, labelText: string)
    ensures Reads(c, [Message(map["label" := labelText], None, "ACK", [])],
                  c.(events := c.events + [Said([], Message(map[], None, "ACK", []), labelText)]),
                  [Said([], Message(map[], None, "ACK", []), labelText)])
  {
    var m := Message(map["label" := labelText], None, "ACK", []);
    assert m.tags - {"batch", "label"} == map[];
    StepReads(c, m, Said([], Message(map[], None, "ACK", []), labelText));
  }

  /** A single message reads the same with a label, but for the label. */
  lemma SingleAnswer(c: Client, m: Message, d: Client, e: Event, labelText: string)
    requires c.open == [] && c.paths == map[] && Reads(c, [m], d, [e])
    ensures Reads(c, [m.(tags := m.tags["label" := labelText])], d.(events := c.events + [WithMark(e, labelText)]),
                  [WithMark(e, labelText)])
  {
    assert forall x :: Read(x, [m][1..]) == Some(x);
    assert ReadOne(c, m) == Some(d);
    var labelled := m.(tags := m.tags["label" := labelText]);
    assert labelled.tags - {"batch", "label"} == m.tags - {"batch", "label"};
    assert m.command != "BATCH";
    assert d.events[|c.events|] == e;
    StepReads(c, labelled, WithMark(e, labelText));
  }

  lemma LabelOpens(cfg: Config, c: Client, ref: nat, w: Wire) returns (d: Client)
    requires Idle(c, ref) && w.batch > ref && w.labelText != ""
    ensures var b := Decimal(w.batch);
            && b !in c.used &&
               ReadOne(c, LabelOpen(w.labelText, b)) == ReadOpen(c, b, LABELED, [], w.labelText) == Some(d)
            && Seen(d, ref, w.batch) && Stands(cfg, d, Scope(w, "", []))
  {
    LabelBatchFresh(c, ref, w.batch);
    LabelBracketReads(c, w.labelText, Decimal(w.batch));
    d := ReadOpen(c, Decimal(w.batch), LABELED, [], w.labelText).value;
    assert [] + [LABELED] == [LABELED];
  }

  lemma LabelCloses(c: Client, ref: nat, w: Wire, c1: Client, ms: seq<Message>, c2: Client, es: seq<Event>, later: nat)
    returns (d: Client)
    requires Idle(c, ref) && Decimal(w.batch) !in c.used && w.batch <= later
    requires var b := Decimal(w.batch);
             ReadOne(c, LabelOpen(w.labelText, b)) == ReadOpen(c, b, LABELED, [], w.labelText) == Some(c1)
    requires Reads(c1, ms, c2, es) && Seen(c2, later, w.batch)
    ensures var b := Decimal(w.batch);
            && Idle(d, later)
            && Reads(c, [LabelOpen(w.labelText, b)] + ms + [CloseMessage(b)], d,
                     [Opened([], LABELED, w.labelText)] + es + [Closed([LABELED])])
  {
    var b := Decimal(w.batch);
    LabelBracketReads(c2, w.labelText, b);
    BracketReads(c, b, LABELED, [], w.labelText, c1, LabelOpen(w.labelText, b), CloseMessage(b), ms, c2, es);
    d := ReadClose(c2, b).value;
    assert [] + [LABELED] == [LABELED];
    LabelBatchSeen(d, later, w.batch);
  }

  /** Under a label, more than one message. */
  lemma BatchAnswer(cfg: Config, c: Client, ref: nat, labelText: string, sends: seq<Send>) returns (d: Client)
    requires Fair(cfg) && AllPlain(sends) && Idle(c, ref) && labelText != ""
    requires |Play(cfg, Trace(labelText, ref, 0, []), sends, "").sent| >= 2
    ensures var t := Play(cfg, Trace(labelText, ref, 0, []), sends, "");
            var es := LiftAll([LABELED], Expected(cfg, sends, []));
            && Idle(d, t.ref)
            && Reads(c, Response(t), d, [Opened([], LABELED, labelText)] + es + [Closed([LABELED])])
  {
    var t0 := Trace(labelText, ref, 0, []);
    var t := Play(cfg, t0, sends, "");
    PlayGrows(cfg, t0, sends, "");
    var w := Wire(labelText, t.batch);
    var c1 := LabelOpens(cfg, c, ref, w);
    var c2 := PlayReads(cfg, c1, t0, sends, Scope(w, "", []));
    BetweenTags(w, t0, t);
    d := LabelCloses(c, ref, w, c1, Between(w, t0, t), c2, LiftAll([LABELED], Expected(cfg, sends, [])), t.ref);
  }

  lemma BetweenTags(w: Wire, t: Trace, u: Trace)
    requires w.labelText != "" && t.sent == []
    ensures Between(w, t, u) == TagAll(u.sent, Decimal(w.batch))
  {
  }

  lemma LabelBracketReads(c: Client, labelText: string, b: string)
    ensures ReadOne(c, LabelOpen(labelText, b)) == ReadOpen(c, b, LABELED, [], labelText)
    ensures ReadOne(c, CloseMessage(b)) == ReadClose(c, b)
  {
    var m := LabelOpen(labelText, b);
    assert m.params[0][1..] == b && m.params[2..] == LABELED.params;
    assert CloseMessage(b).params[0][1..] == b;
  }

  lemma LabelBatchFresh(c: Client, ref: nat, batch: nat)
    requires Idle(c, ref) && batch > ref
    ensures c.used <= Refs(ref) && Decimal(batch) !in c.used
  {
    RefsGrow(0, ref);
    if Decimal(batch) in c.used {
      RefsOnly(ref, batch);
    }
  }

  lemma {:induction false} LabelBatchSeen(c: Client, ref: nat, batch: nat)
    requires Seen(c, ref, batch) && batch <= ref
    ensures Seen(c, ref, 0)
  {
    RefsGrow(batch, ref);
  }

  /** Under a label, one message or none. */
  lemma FewAnswer(cfg: Config, c: Client, ref: nat, labelText: string, sends: seq<Send>) returns (d: Client)
    requires Fair(cfg) && AllPlain(sends) && Idle(c, ref) && labelText != ""
    requires |Play(cfg, Trace(labelText, ref, 0, []), sends, "").sent| <= 1
    ensures var t := Play(cfg, Trace(labelText, ref, 0, []), sends, "");
            Idle(d, t.ref) && Reads(c, Closing(t), d, Labelled(labelText, Expected(cfg, sends, [])))
  {
    var t0 := Trace(labelText, ref, 0, []);
    var t, es := Play(cfg, t0, sends, ""), Expected(cfg, sends, []);
    PlayGrows(cfg, t0, sends, "");
    PlayCounts(cfg, t0, sends, "", []);
    FewAlike(cfg, t0, sends, "");
    d := PlainAnswer(cfg, c, ref, sends);
    if |t.sent| == 0 {
      AckAnswer(d, labelText);
      assert d == c;
      d := d.(events := d.events + [Said([], Message(map[], None, "ACK", []), labelText)]);
    } else {
      assert t.sent == [t.sent[0]] && es == [es[0]];
      SingleAnswer(c, t.sent[0], d, es[0], labelText);
      d := d.(events := c.events + [WithMark(es[0], labelText)]);
    }
  }

  /**
   A command is answered exactly once. Whatever is sent while a command is handled, in whatever batches, a
   client with nothing open reads all of it in order, each message and batch where it was sent, and with a
   label: an acknowledgement if nothing was sent, the message itself under the label if it was one, and
   otherwise one batch under the label around everything. It is left with nothing open, ready for the next.
   */
  lemma AnsweredOnce(cfg: Config, c: Client, ref: nat, labelText: string, sends: seq<Send>) returns (d: Client)
    requires Fair(cfg) && AllPlain(sends) && Idle(c, ref)
    ensures var t := Play(cfg, Trace(labelText, ref, 0, []), sends, "");
            Idle(d, t.ref) && Reads(c, Response(t), d, Labelled(labelText, Expected(cfg, sends, [])))
  {
    var t0 := Trace(labelText, ref, 0, []);
    var t := Play(cfg, t0, sends, "");
    PlayGrows(cfg, t0, sends, "");
    PlayCounts(cfg, t0, sends, "", []);
    if labelText == "" {
      d := PlainAnswer(cfg, c, ref, sends);
      assert t.sent + [] == t.sent;
    } else if |t.sent| >= 2 {
      d := BatchAnswer(cfg, c, ref, labelText, sends);
    } else {
      d := FewAnswer(cfg, c, ref, labelText, sends);
      assert [] + Closing(t) == Closing(t);
    }
  }

  // ----- One label -----

  /** The labels a client reads. */
  function Labels(es: seq<Event>): seq<string> {
    if es == [] then []
    else
      var rest := Labels(es[1..]);
      if es[0].Closed? || es[0].mark == "" then rest else [es[0].mark] + rest
  }

  predicate Unmarked(es: seq<Event>) {
    forall e <- es :: e.Closed? || e.mark == ""
  }

  lemma {:induction false} UnmarkedLabels(es: seq<Event>)
    requires Unmarked(es)
    ensures Labels(es) == []
  {
    if es != [] {
      UnmarkedLabels(es[1..]);
    }
  }

  lemma {:induction false} ExpectedUnmarked(cfg: Config, sends: seq<Send>, path: seq<Kind>)
    ensures Unmarked(Expected(cfg, sends, path))
    decreases sends
  {
    if sends != [] {
      match sends[0] {
        case One(_, _) =>
        case Batch(kind, inside, body) =>
          if cfg.batches {
            ExpectedUnmarked(cfg, body, (if inside then path else []) + [kind]);
          } else {
            ExpectedUnmarked(cfg, body, []);
          }
      }
      ExpectedUnmarked(cfg, sends[1..], path);
    }
  }

  /** Whatever was sent, the label of the command is read once, and no other is. */
  lemma OneLabel(cfg: Config, labelText: string, sends: seq<Send>)
    requires labelText != ""
    ensures Labels(Labelled(labelText, Expected(cfg, sends, []))) == [labelText]
  {
    var es := Expected(cfg, sends, []);
    ExpectedUnmarked(cfg, sends, []);
    if |es| == 1 {
      NotOnlyClosed(cfg, sends, []);
    } else if |es| >= 2 {
      UnmarkedLabels(LiftAll([LABELED], es) + [Closed([LABELED])]);
      var all := Labelled(labelText, es);
      assert all[1..] == LiftAll([LABELED], es) + [Closed([LABELED])];
    }
  }

  lemma {:induction false} NotOnlyClosed(cfg: Config, sends: seq<Send>, path: seq<Kind>)
    requires |Expected(cfg, sends, path)| >= 1
    ensures !Expected(cfg, sends, path)[0].Closed?
    decreases sends
  {
    var first := ExpectedOne(cfg, sends[0], path);
    if first == [] {
      NotOnlyClosed(cfg, sends[1..], path);
    } else if sends[0].Batch? && !cfg.batches {
      NotOnlyClosed(cfg, sends[0].body, []);
    }
  }

  // ----- Whole sessions -----

  /** A command with what its handler sends, and whether that fails for good. */
  datatype Command = Command(labelText: string, sends: seq<Send>, fatal: bool)

  function Answers(cfg: Config, commands: seq<Command>): seq<Event> {
    if commands == [] then []
    else
      var n := |commands| - 1;
      Answers(cfg, commands[..n]) + Labelled(commands[n].labelText, Expected(cfg, commands[n].sends, []))
  }

  lemma ReadOneGrows(c: Client, m: Message)
    requires ReadOne(c, m).Some?
    ensures c.events <= ReadOne(c, m).value.events
  {
  }

  /** Reading only adds events. */
  lemma {:induction false} ReadGrows(c: Client, ms: seq<Message>)
    requires Read(c, ms).Some?
    ensures c.events <= Read(c, ms).value.events
    decreases ms
  {
    if ms != [] {
      ReadOneGrows(c, ms[0]);
      ReadGrows(ReadOne(c, ms[0]).value, ms[1..]);
    }
  }

  /** Messages that can be read can be read up to any point. */
  lemma {:induction false} ReadUpTo(c: Client, a: seq<Message>, b: seq<Message>)
    requires Read(c, a + b).Some?
    ensures Read(c, a).Some?
    decreases a
  {
    if a != [] {
      assert (a + b)[1..] == a[1..] + b;
      ReadUpTo(ReadOne(c, a[0]).value, a[1..], b);
    }
  }

  /** What is read of the beginning of some messages is the beginning of what is read of all. */
  lemma ReadPrefix(c: Client, a: seq<Message>, b: seq<Message>)
    requires Read(c, a + b).Some?
    ensures Read(c, a).Some? && c.events <= Read(c, a).value.events <= Read(c, a + b).value.events
  {
    ReadUpTo(c, a, b);
    ReadConcat(c, a, b);
    ReadGrows(c, a);
    ReadGrows(Read(c, a).value, b);
  }

  /** How many commands are handled to the end before one fails for good. */
  function Completed(commands: seq<Command>): (n: nat)
    ensures n <= |commands| && (n < |commands| ==> commands[n].fatal)
  {
    if commands == [] || commands[0].fatal then 0 else 1 + Completed(commands[1..])
  }

  /** What the client has read: every completed command answered once, and part of the answer to one that failed. */
  ghost predicate ReadsAnswers(cfg: Config, commands: seq<Command>, out: seq<Message>) {
    var c, n := Read(Client([], map[], {}, []), out), Completed(commands);
    && c.Some? && Answers(cfg, commands[..n]) <= c.value.events
    && (n == |commands| ==> c.value.open == [] && c.value.events == Answers(cfg, commands))
    && (n < |commands| ==> c.value.events <= Answers(cfg, commands[..n + 1]))
  }

  lemma {:induction false} CompletedAt(commands: seq<Command>, i: nat)
    requires i <= |commands| && (i < |commands| ==> commands[i].fatal) && forall j | 0 <= j < i :: !commands[j].fatal
    ensures Completed(commands) == i
    decreases i
  {
    if i > 0 {
      CompletedAt(commands[1..], i - 1);
    }
  }

  /** The first commands are answered, and the client stands between two commands. */
  ghost predicate Answered(cfg: Config, commands: seq<Command>, i: nat, out: seq<Message>, ref: nat, c: Client) {
    && i <= |commands| && (forall j | 0 <= j < i :: !commands[j].fatal)
    && Read(Client([], map[], {}, []), out) == Some(c) && Idle(c, ref) && c.events == Answers(cfg, commands[..i])
  }

  function TraceOf(cfg: Config, cmd: Command, ref: nat): Trace {
    Play(cfg, Trace(cmd.labelText, ref, 0, []), cmd.sends, "")
  }

  lemma NextAnswered(cfg: Config, commands: seq<Command>, i: nat, out: seq<Message>, ref: nat, c: Client)
    returns (d: Client)
    requires Fair(cfg) && Answered(cfg, commands, i, out, ref, c) && i < |commands| && AllPlain(commands[i].sends)
    ensures var t := TraceOf(cfg, commands[i], ref);
            && (!commands[i].fatal ==> Answered(cfg, commands, i + 1, out + Response(t), t.ref, d))
            && (commands[i].fatal ==> ReadsAnswers(cfg, commands, out + Written(t)))
  {
    var cmd, t := commands[i], TraceOf(cfg, commands[i], ref);
    d := AnsweredOnce(cfg, c, ref, cmd.labelText, cmd.sends);
    assert commands[..i + 1][..i] == commands[..i];
    if cmd.fatal {
      CompletedAt(commands, i);
      ReadPrefix(c, Written(t), Closing(t));
      ReadConcat(Client([], map[], {}, []), out, Written(t));
    } else {
      ReadConcat(Client([], map[], {}, []), out, Response(t));
    }
  }

  lemma AllAnswered(cfg: Config, commands: seq<Command>, out: seq<Message>, ref: nat, c: Client)
    requires Answered(cfg, commands, |commands|, out, ref, c)
    ensures ReadsAnswers(cfg, commands, out)
  {
    CompletedAt(commands, |commands|);
    assert commands[..|commands|] == commands;
  }

  /** Any run of commands on one connection, read from the first byte on, until the connection is closed. */
  method Serve(caps: set<string>, server: string, commands: seq<Command>) returns (dc: Downstream)
    requires forall cmd <- commands :: AllPlain(cmd.sends)
    ensures ReadsAnswers(ConfigOf(caps, server), commands, dc.out)
  {
    dc := new Downstream(caps, server);
    FilterFair(caps, server);
    ghost var c := Client([], map[], {}, []);
    for i := 0 to |commands|
      invariant fresh(dc) && dc.caps == caps && dc.server == server
      invariant Answered(dc.cfg, commands, i, dc.out, dc.lastBatchRef, c)
    {
      c := NextAnswered(dc.cfg, commands, i, dc.out, dc.lastBatchRef, c);
      var err := dc.Handle(commands[i].labelText, commands[i].sends, commands[i].fatal);
      if err {
        return;
      }
    }
    AllAnswered(dc.cfg, commands, dc.out, dc.lastBatchRef, c);
  }
}
