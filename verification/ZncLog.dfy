/**
 The ZNC-compatible log format: one line of text per message, written by MarshalLine and read back by
 UnmarshalLine. Reading undoes writing up to a normal form.
 */
module ZncLog {
  import opened Text

  datatype Prefix = Prefix(name: string, user: string, host: string)

  datatype Message = Message(prefix: Prefix, command: string, params: seq<string>)

  /** Wall-clock time of day, in the local time zone. */
  datatype Clock = Clock(hour: int, minute: int, second: int) {
    predicate Valid() { 0 <= hour < 24 && 0 <= minute < 60 && 0 <= second < 60 }
    function Seconds(): int { 3600 * hour + 60 * minute + second }
  }

  /** A line that is not a log line, one that is not loaded, or a message with its time of day. */
  datatype Parsed = Malformed | Ignored | Line(msg: Message, clock: Clock)

  const CTCP: char := '\U{0001}'

  // ----- Writing -----

  const KNOWN_AS := "is now known as "
  const KICKED_BY := "was kicked by "
  const TOPIC_TO := "changes topic to "
  const SETS_MODE := "sets mode: "

  function Digit(n: int): char
    requires 0 <= n < 10
  {
    ('0' as int + n) as char
  }

  function TwoDigits(n: int): string
    requires 0 <= n < 100
  {
    [Digit(n / 10), Digit(n % 10)]
  }

  /** "[%02d:%02d:%02d] %s" */
  function Stamped(c: Clock, s: string): string
    requires c.Valid()
  {
    ['['] + (TwoDigits(c.hour) + ([':'] + (TwoDigits(c.minute) + ([':'] + (TwoDigits(c.second) + ([']', ' '] + s))))))
  }

  function TrimLeft(s: string, c: char): string {
    if s != "" && s[0] == c then TrimLeft(s[1..], c) else s
  }

  function TrimRight(s: string, c: char): string {
    if s != "" && s[|s| - 1] == c then TrimRight(s[..|s| - 1], c) else s
  }

  /** The parameters of a CTCP ACTION, if the text of the message is one. */
  function ActionText(text: string): Option<string> {
    if !HasPrefix(text, [CTCP]) then None
    else
      var body := TrimRight(TrimLeft(text, CTCP), CTCP);
      match Cut(body, " ")
      case Some((cmd, params)) => if ToUpper(cmd) == "ACTION" then Some(params) else None
      case None => if ToUpper(body) == "ACTION" then Some("") else None
  }

  /** ParseCTCPMessage looks for the command as such, although the log does not mind its case. */
  function Action(m: Message): Option<string> {
    if m.command == "PRIVMSG" && |m.params| >= 2 then ActionText(m.params[1]) else None
  }

  /** The parameter counts every message of its kind has on the wire. */
  predicate Complete(m: Message) {
    match ToUpper(m.command)
    case "NICK" => |m.params| >= 1
    case "KICK" => |m.params| >= 2
    case "MODE" => |m.params| >= 1
    case "NOTICE" => |m.params| >= 2
    case "PRIVMSG" => |m.params| >= 2
    case _ => true
  }

  function Param(m: Message, i: nat): string {
    if i < |m.params| then m.params[i] else ""
  }

  function Mask(p: Prefix): string {
    p.name + " (" + p.user + "@" + p.host + ")"
  }

  predicate IsEvent(m: Message) {
    ToUpper(m.command) in {"NICK", "JOIN", "PART", "KICK", "QUIT", "TOPIC", "MODE"}
  }

  /** The text of an event line after the three asterisks. */
  function EventBody(m: Message): string
    requires Complete(m) && IsEvent(m)
  {
    var name := m.prefix.name;
    match ToUpper(m.command)
    case "NICK" => name + " " + (KNOWN_AS + m.params[0])
    case "JOIN" => "Joins:" + " " + Mask(m.prefix)
    case "PART" => "Parts:" + " " + (Mask(m.prefix) + (" " + ("(" + Param(m, 1) + ")")))
    case "KICK" => m.params[1] + " " + (KICKED_BY + (name + " " + ("(" + Param(m, 2) + ")")))
    case "QUIT" => "Quits:" + " " + (Mask(m.prefix) + (" " + ("(" + Param(m, 0) + ")")))
    case "TOPIC" => name + " " + (TOPIC_TO + ("'" + Param(m, 1) + "'"))
    case _ => name + " " + (SETS_MODE + Join(m.params[1..], ' '))
  }

  /** The text of a log line; empty for a message that is not logged. */
  function Format(m: Message): string
    requires Complete(m)
  {
    var name := m.prefix.name;
    if IsEvent(m) then "*** " + EventBody(m)
    else
      match ToUpper(m.command)
      case "NOTICE" => "-" + name + "- " + m.params[1]
      case "PRIVMSG" =>
        (match Action(m)
         case Some(action) => "* " + name + " " + action
         case None => "<" + name + "> " + m.params[1])
      case _ => ""
  }

  function MarshalLine(m: Message, c: Clock): string
    requires Complete(m) && c.Valid()
  {
    var s := Format(m);
    if s == "" then "" else Stamped(c, s)
  }

  // ----- Reading -----

  predicate IsDigit(c: char) { '0' <= c <= '9' }

  function DigitValue(c: char): int { c as int - '0' as int }

  function SkipSpace(s: string): string {
    if s != "" && IsSpace(s[0]) then SkipSpace(s[1..]) else s
  }

  /** fmt's scan of a decimal number at most two characters wide: blanks, an optional sign, digits. */
  function ScanTwo(line: string): Option<(int, string)> {
    var s := SkipSpace(line);
    if s == "" then None
    else if s[0] == '+' || s[0] == '-' then
      if |s| >= 2 && IsDigit(s[1])
      then Some((if s[0] == '-' then -DigitValue(s[1]) else DigitValue(s[1]), s[2..]))
      else None
    else if !IsDigit(s[0]) then None
    else if |s| >= 2 && IsDigit(s[1]) then Some((10 * DigitValue(s[0]) + DigitValue(s[1]), s[2..]))
    else Some((DigitValue(s[0]), s[1..]))
  }

  function Expect(s: string, c: char): Option<string> {
    if s != "" && s[0] == c then Some(s[1..]) else None
  }

  function ScanPart(s: string, lead: char): Option<(int, string)> {
    match Expect(s, lead)
    case None => None
    case Some(rest) => ScanTwo(rest)
  }

  /** fmt.Sscanf with "[%02d:%02d:%02d] ". */
  function ScanClock(line: string): Option<Clock> {
    match ScanPart(line, '[')
    case None => None
    case Some((hour, rest)) => ScanMinute(rest, hour)
  }

  function ScanMinute(s: string, hour: int): Option<Clock> {
    match ScanPart(s, ':')
    case None => None
    case Some((minute, rest)) => ScanSecond(rest, hour, minute)
  }

  function ScanSecond(s: string, hour: int, minute: int): Option<Clock> {
    match ScanPart(s, ':')
    case None => None
    case Some((second, rest)) => if ScanEnd(rest) then Some(Clock(hour, minute, second)) else None
  }

  predicate ScanEnd(s: string) {
    match Expect(s, ']')
    case None => false
    case Some(rest) => rest == "" || IsSpace(rest[0])
  }

  function Unparen(s: string): string {
    TrimSuffix(TrimPrefix(s, "("), ")")
  }

  function Optional(s: string): seq<string> {
    if s == "" then [] else [s]
  }

  /** "Joins:", "Parts:" and "Quits:" lines, after the keyword. */
  function ParseMembership(keyword: string, rest: string, entity: string): Option<Message> {
    match Cut(rest, " ")
    case None => None
    case Some((nick, tail)) =>
      var (mask, reason) := match Cut(tail, " ") case Some((a, b)) => (a, Unparen(b)) case None => (tail, "");
      match Cut(Unparen(mask), "@")
      case None => None
      case Some((user, host)) =>
        var prefix := Prefix(nick, user, host);
        Some(match keyword
             case "Joins:" => Message(prefix, "JOIN", [entity])
             case "Parts:" => Message(prefix, "PART", [entity] + Optional(reason))
             case _ => Message(prefix, "QUIT", Optional(reason)))
  }

  /** All other event lines. */
  function ParseChange(nick: string, rem: string, entity: string): Option<Message> {
    if HasPrefix(rem, KNOWN_AS) then
      Some(Message(Prefix(nick, "", ""), "NICK", [rem[|KNOWN_AS|..]]))
    else if HasPrefix(rem, KICKED_BY) then
      match Cut(rem[|KICKED_BY|..], " ")
      case None => None
      case Some((kicker, reason)) =>
        Some(Message(Prefix(kicker, "", ""), "KICK", [entity, nick] + Optional(Unparen(reason))))
    else if HasPrefix(rem, TOPIC_TO) then
      Some(Message(Prefix(nick, "", ""), "TOPIC",
                   [entity, TrimSuffix(TrimPrefix(rem[|TOPIC_TO|..], "'"), "'")]))
    else if HasPrefix(rem, SETS_MODE) then
      Some(Message(Prefix(nick, "", ""), "MODE", [entity] + Split(rem[|SETS_MODE|..], ' ')))
    else None
  }

  predicate MembershipKeyword(s: string) {
    s == "Joins:" || s == "Parts:" || s == "Quits:"
  }

  function ParseEvent(line: string, entity: string): Option<Message> {
    match Cut(line, " ")
    case None => None
    case Some((word, rest)) =>
      if MembershipKeyword(word) then ParseMembership(word, rest, entity) else ParseChange(word, rest, entity)
  }

  /** In a private conversation the log is named after the other side, and our own nick is not stored. */
  function Recipient(sender: string, entity: string, me: string): string {
    if entity == sender then me else entity
  }

  function Chat(cmd: string, sender: string, text: string, entity: string, me: string): Message {
    Message(Prefix(sender, "", ""), cmd, [Recipient(sender, entity, me), text])
  }

  function ParseChat(line: string, entity: string, me: string): Option<Message> {
    if HasPrefix(line, "<") then
      match Cut(line[1..], "> ")
      case None => None
      case Some((sender, text)) => Some(Chat("PRIVMSG", sender, text, entity, me))
    else if HasPrefix(line, "-") then
      match Cut(line[1..], "- ")
      case None => None
      case Some((sender, text)) => Some(Chat("NOTICE", sender, text, entity, me))
    else if HasPrefix(line, "* ") then
      match Cut(line[2..], " ")
      case None => None
      case Some((sender, text)) => Some(Chat("PRIVMSG", sender, [CTCP] + "ACTION " + text + [CTCP], entity, me))
    else None
  }

  const STAMP_LEN := 11

  /** The line after its time stamp; without `events` only PRIVMSG and NOTICE lines are read. */
  function ParseBody(body: string, entity: string, me: string, events: bool): Option<Message> {
    if events && HasPrefix(body, "*** ") then ParseEvent(body[4..], entity) else ParseChat(body, entity, me)
  }

  /** UnmarshalLine for the log of `entity`, of a user whose own nick is `me`. */
  function UnmarshalLine(line: string, entity: string, me: string, events: bool): Parsed {
    match ScanClock(line)
    case None => Malformed
    case Some(clock) =>
      if |line| < STAMP_LEN then Malformed
      else
        match ParseBody(line[STAMP_LEN..], entity, me, events)
        case None => Ignored
        case Some(msg) => Line(msg, clock)
  }

  // ----- Reading undoes writing -----

  /** What is left of a message that went through the log of `entity`. */
  function Normal(m: Message, entity: string, me: string): Message {
    var nameOnly := Prefix(m.prefix.name, "", "");
    match ToUpper(m.command)
    case "NICK" => Message(nameOnly, "NICK", [Param(m, 0)])
    case "JOIN" => Message(m.prefix, "JOIN", [entity])
    case "PART" => Message(m.prefix, "PART", [entity] + Optional(Param(m, 1)))
    case "KICK" => Message(nameOnly, "KICK", [entity, Param(m, 1)] + Optional(Param(m, 2)))
    case "QUIT" => Message(m.prefix, "QUIT", Optional(Param(m, 0)))
    case "TOPIC" => Message(nameOnly, "TOPIC", [entity, Param(m, 1)])
    case "MODE" => Message(nameOnly, "MODE", [entity] + if m.params == [] then [] else m.params[1..])
    case "NOTICE" => Chat("NOTICE", m.prefix.name, Param(m, 1), entity, me)
    case _ =>
      var text := match Action(m)
                  case Some(action) => [CTCP] + "ACTION " + action + [CTCP]
                  case None => Param(m, 1);
      Chat("PRIVMSG", m.prefix.name, text, entity, me)
  }

  predicate Word(s: string) { Free(s, ' ') }

  /** A nickname that starts an event line of its own. */
  predicate Subject(s: string) { Word(s) && !MembershipKeyword(s) }

  predicate MaskWords(p: Prefix) { Word(p.name) && Word(p.user) && Free(p.user, '@') && Word(p.host) }

  predicate Loggable(m: Message) {
    ToUpper(m.command) in {"NICK", "JOIN", "PART", "KICK", "QUIT", "TOPIC", "MODE", "NOTICE", "PRIVMSG"}
  }

  /** The delimiters of the line format do not occur where they would be mistaken for one. */
  predicate WellFormed(m: Message) {
    match ToUpper(m.command)
    case "NICK" => Subject(m.prefix.name)
    case "JOIN" => MaskWords(m.prefix)
    case "PART" => MaskWords(m.prefix)
    case "KICK" => Subject(Param(m, 1)) && Word(m.prefix.name)
    case "QUIT" => MaskWords(m.prefix)
    case "TOPIC" => Subject(m.prefix.name)
    case "MODE" => Subject(m.prefix.name) && |m.params| >= 2 && forall p | p in m.params[1..] :: Word(p)
    case "NOTICE" => Cut(m.prefix.name, "- ").None?
    case _ => Cut(m.prefix.name, if Action(m).Some? then " " else "> ").None?
  }

  lemma ScanTwoDigits(n: int, rest: string)
    requires 0 <= n < 100
    ensures ScanTwo(TwoDigits(n) + rest) == Some((n, rest))
  {
    var s := TwoDigits(n) + rest;
    assert !IsSpace(s[0]) && SkipSpace(s) == s;
    assert s[2..] == rest;
  }

  lemma ScanPartDigits(lead: char, n: int, rest: string)
    requires 0 <= n < 100
    ensures ScanPart([lead] + (TwoDigits(n) + rest), lead) == Some((n, rest))
  {
    assert ([lead] + (TwoDigits(n) + rest))[1..] == TwoDigits(n) + rest;
    ScanTwoDigits(n, rest);
  }

  lemma ScanStamp(c: Clock, s: string)
    requires c.Valid()
    ensures ScanClock(Stamped(c, s)) == Some(c)
  {
    var r4 := [']', ' '] + s;
    var r3 := [':'] + (TwoDigits(c.second) + r4);
    var r2 := [':'] + (TwoDigits(c.minute) + r3);
    assert ScanEnd(r4) by {
      assert r4[1..] == [' '] + s;
    }
    assert ScanSecond(r3, c.hour, c.minute) == Some(c) by {
      ScanPartDigits(':', c.second, r4);
    }
    assert ScanMinute(r2, c.hour) == Some(c) by {
      ScanPartDigits(':', c.minute, r3);
    }
    ScanPartDigits('[', c.hour, r2);
  }

  lemma StampLength(c: Clock, s: string)
    requires c.Valid()
    ensures |Stamped(c, s)| == STAMP_LEN + |s| && Stamped(c, s)[STAMP_LEN..] == s
  {
  }

  lemma UnparenInverse(s: string)
    ensures Unparen("(" + s + ")") == s
  {
    var t := "(" + s + ")";
    assert t[1..] == s + ")";
    assert HasSuffix(s + ")", ")");
  }

  lemma UnparenFree(s: string, c: char)
    requires Free(s, c)
    ensures Free(Unparen(s), c)
  {
  }

  /** The subject word of an event line is read back exactly if it is one. */
  lemma EventSubject(name: string, rest: string, entity: string)
    ensures Word(name) ==> Cut(name + " " + rest, " ") == Some((name, rest))
    ensures !Word(name) ==> var r := Cut(name + " " + rest, " "); r.Some? && r.value.0 != name
  {
    CutBefore(name, " ", rest);
    CutParts(name, " ");
  }

  /** An event line that is not about membership is read from its subject on, if that is one. */
  lemma SubjectIff(name: string, rest: string, entity: string, m: Message)
    requires m.prefix.name == name && m.command in {"NICK", "TOPIC", "MODE"}
    ensures ParseEvent(name + " " + rest, entity) == Some(m) <==>
            Subject(name) && ParseChange(name, rest, entity) == Some(m)
  {
    EventSubject(name, rest, entity);
  }

  lemma NickIff(name: string, nick: string, entity: string)
    ensures ParseEvent(name + " " + (KNOWN_AS + nick), entity) ==
              Some(Message(Prefix(name, "", ""), "NICK", [nick]))
            <==> Subject(name)
  {
    SubjectIff(name, KNOWN_AS + nick, entity, Message(Prefix(name, "", ""), "NICK", [nick]));
    assert (KNOWN_AS + nick)[|KNOWN_AS|..] == nick;
  }

  lemma TopicIff(name: string, topic: string, entity: string)
    ensures ParseEvent(name + " " + (TOPIC_TO + ("'" + topic + "'")), entity) ==
              Some(Message(Prefix(name, "", ""), "TOPIC", [entity, topic]))
            <==> Subject(name)
  {
    var quoted := "'" + topic + "'";
    var rest := TOPIC_TO + quoted;
    SubjectIff(name, rest, entity, Message(Prefix(name, "", ""), "TOPIC", [entity, topic]));
    assert rest[0] == 'c' && rest[|TOPIC_TO|..] == quoted;
    assert quoted[1..] == topic + "'" && HasSuffix(topic + "'", "'");
  }

  lemma ModeRead(name: string, text: string, entity: string)
    ensures ParseChange(name, SETS_MODE + text, entity) ==
            Some(Message(Prefix(name, "", ""), "MODE", [entity] + Split(text, ' ')))
  {
    var rest := SETS_MODE + text;
    assert rest[0] == 's' && rest[|SETS_MODE|..] == text;
  }

  lemma ModeIff(name: string, args: seq<string>, entity: string)
    ensures ParseEvent(name + " " + (SETS_MODE + Join(args, ' ')), entity) ==
              Some(Message(Prefix(name, "", ""), "MODE", [entity] + args))
            <==> Subject(name) && args != [] && forall p | p in args :: Word(p)
  {
    var text := Join(args, ' ');
    SubjectIff(name, SETS_MODE + text, entity, Message(Prefix(name, "", ""), "MODE", [entity] + args));
    ModeRead(name, text, entity);
    SplitJoinIff(args, ' ');
    assert ([entity] + args)[1..] == args && ([entity] + Split(text, ' '))[1..] == Split(text, ' ');
  }

  lemma KickIff(victim: string, name: string, reason: string, entity: string)
    ensures ParseEvent(victim + " " + (KICKED_BY + (name + " " + ("(" + reason + ")"))), entity) ==
              Some(Message(Prefix(name, "", ""), "KICK", [entity, victim] + Optional(reason)))
            <==> Subject(victim) && Word(name)
  {
    var tail := name + " " + ("(" + reason + ")");
    var rest := KICKED_BY + tail;
    EventSubject(victim, rest, entity);
    EventSubject(name, "(" + reason + ")", entity);
    UnparenInverse(reason);
    assert rest[0] == 'w' && rest[|KICKED_BY|..] == tail;
    var r := ParseEvent(victim + " " + rest, entity);
    assert r.Some? && r.value.command == "KICK" ==> r.value.params[1] == Cut(victim + " " + rest, " ").value.0;
  }

  /** The mask of a membership line, read back from what precedes the next blank. */
  lemma MaskIff(user: string, host: string, suffix: string)
    requires suffix == "" || HasPrefix(suffix, " ")
    ensures var tail := "(" + user + "@" + host + ")" + suffix;
            var mask := match Cut(tail, " ") case Some((a, _)) => a case None => tail;
            Cut(Unparen(mask), "@") == Some((user, host)) <==> Word(user) && Word(host) && Free(user, '@')
  {
    var full := "(" + user + "@" + host + ")";
    var tail := full + suffix;
    var mask := match Cut(tail, " ") case Some((a, _)) => a case None => tail;
    CutParts(full, " ");
    CutParts(tail, " ");
    if Word(user) && Word(host) {
      if suffix == "" {
        assert tail == full;
      } else {
        assert tail == full + " " + suffix[1..];
        CutBefore(full, " ", suffix[1..]);
      }
      assert mask == full;
      assert full == "(" + (user + "@" + host) + ")";
      UnparenInverse(user + "@" + host);
      CutBefore(user, "@", host);
      CutParts(user, "@");
    } else {
      UnparenFree(mask, ' ');
      CutParts(Unparen(mask), "@");
    }
  }

  lemma MembershipTail(p: Prefix, suffix: string)
    ensures Mask(p) + suffix == p.name + " " + ("(" + p.user + "@" + p.host + ")" + suffix)
  {
  }

  /** The reason after the mask of a PART or QUIT. */
  lemma ReasonRead(user: string, host: string, reason: string)
    requires Word(user) && Word(host)
    ensures var tail := "(" + user + "@" + host + ")" + (" " + ("(" + reason + ")"));
            Cut(tail, " ") == Some(("(" + user + "@" + host + ")", "(" + reason + ")"))
  {
    var full := "(" + user + "@" + host + ")";
    CutParts(full, " ");
    CutBefore(full, " ", "(" + reason + ")");
    assert full + (" " + ("(" + reason + ")")) == full + " " + ("(" + reason + ")");
  }

  lemma JoinIff(p: Prefix, entity: string)
    ensures ParseMembership("Joins:", Mask(p), entity) == Some(Message(p, "JOIN", [entity])) <==> MaskWords(p)
  {
    var tail := "(" + p.user + "@" + p.host + ")" + "";
    assert Mask(p) == p.name + " " + tail;
    EventSubject(p.name, tail, entity);
    MaskIff(p.user, p.host, "");
  }

  /** What a PART or QUIT line is cut into. */
  lemma LeaveParts(p: Prefix, reason: string, entity: string)
    ensures var tail := "(" + p.user + "@" + p.host + ")" + (" " + ("(" + reason + ")"));
            var mask := match Cut(tail, " ") case Some((a, _)) => a case None => tail;
            var rest := Mask(p) + (" " + ("(" + reason + ")"));
            && (Word(p.name) ==> Cut(rest, " ") == Some((p.name, tail)))
            && (!Word(p.name) ==> Cut(rest, " ").Some? && Cut(rest, " ").value.0 != p.name)
            && (MaskWords(p) <==> Word(p.name) && Cut(Unparen(mask), "@") == Some((p.user, p.host)))
            && (MaskWords(p) ==> Cut(tail, " ").Some? && Unparen(Cut(tail, " ").value.1) == reason)
  {
    var suffix := " " + ("(" + reason + ")");
    MembershipTail(p, suffix);
    EventSubject(p.name, "(" + p.user + "@" + p.host + ")" + suffix, entity);
    MaskIff(p.user, p.host, suffix);
    if MaskWords(p) {
      ReasonRead(p.user, p.host, reason);
      UnparenInverse(reason);
    }
  }

  /** A membership line whose parts are given. */
  lemma LeaveRead(keyword: string, rest: string, nick: string, tail: string, p: Prefix, reason: string, entity: string)
    requires keyword == "Parts:" || keyword == "Quits:"
    requires Cut(rest, " ") == Some((nick, tail))
    requires var mask := match Cut(tail, " ") case Some((a, _)) => a case None => tail;
             (nick == p.name && Cut(Unparen(mask), "@") == Some((p.user, p.host)) <==> MaskWords(p))
    requires MaskWords(p) ==> Cut(tail, " ").Some? && Unparen(Cut(tail, " ").value.1) == reason
    ensures ParseMembership(keyword, rest, entity) == Some(Left(keyword, p, reason, entity)) <==> MaskWords(p)
  {
  }

  function Left(keyword: string, p: Prefix, reason: string, entity: string): Message {
    if keyword == "Parts:" then Message(p, "PART", [entity] + Optional(reason))
    else Message(p, "QUIT", Optional(reason))
  }

  lemma LeaveIff(keyword: string, p: Prefix, reason: string, entity: string)
    requires keyword == "Parts:" || keyword == "Quits:"
    ensures ParseMembership(keyword, Mask(p) + (" " + ("(" + reason + ")")), entity) ==
              Some(Left(keyword, p, reason, entity))
            <==> MaskWords(p)
  {
    var rest := Mask(p) + (" " + ("(" + reason + ")"));
    LeaveParts(p, reason, entity);
    var (nick, tail) := Cut(rest, " ").value;
    LeaveRead(keyword, rest, nick, tail, p, reason, entity);
  }

  lemma KeywordLine(keyword: string, rest: string, entity: string)
    requires MembershipKeyword(keyword)
    ensures ParseEvent(keyword + " " + rest, entity) == ParseMembership(keyword, rest, entity)
  {
    EventSubject(keyword, rest, entity);
  }

  lemma EventIff(m: Message, entity: string, me: string)
    requires Complete(m) && IsEvent(m)
    ensures ParseEvent(EventBody(m), entity) == Some(Normal(m, entity, me)) <==> WellFormed(m)
  {
    var name := m.prefix.name;
    match ToUpper(m.command)
    case "NICK" => NickIff(name, m.params[0], entity);
    case "JOIN" =>
      KeywordLine("Joins:", Mask(m.prefix), entity);
      JoinIff(m.prefix, entity);
    case "PART" =>
      KeywordLine("Parts:", Mask(m.prefix) + (" " + ("(" + Param(m, 1) + ")")), entity);
      LeaveIff("Parts:", m.prefix, Param(m, 1), entity);
    case "KICK" => KickIff(m.params[1], name, Param(m, 2), entity);
    case "QUIT" =>
      KeywordLine("Quits:", Mask(m.prefix) + (" " + ("(" + Param(m, 0) + ")")), entity);
      LeaveIff("Quits:", m.prefix, Param(m, 0), entity);
    case "TOPIC" => TopicIff(name, Param(m, 1), entity);
    case _ => ModeIff(name, m.params[1..], entity);
  }

  lemma NoticeIff(name: string, text: string, entity: string, me: string)
    ensures ParseChat("-" + name + "- " + text, entity, me) == Some(Chat("NOTICE", name, text, entity, me))
            <==> Cut(name, "- ").None?
  {
    var line := "-" + name + "- " + text;
    assert line[0] == '-' && line[1..] == name + "- " + text;
    CutBefore(name, "- ", text);
  }

  lemma PlainIff(name: string, text: string, entity: string, me: string)
    ensures ParseChat("<" + name + "> " + text, entity, me) == Some(Chat("PRIVMSG", name, text, entity, me))
            <==> Cut(name, "> ").None?
  {
    var line := "<" + name + "> " + text;
    assert line[0] == '<' && line[1..] == name + "> " + text;
    CutBefore(name, "> ", text);
  }

  lemma ActionIff(name: string, action: string, entity: string, me: string)
    ensures ParseChat("* " + name + " " + action, entity, me) ==
              Some(Chat("PRIVMSG", name, [CTCP] + "ACTION " + action + [CTCP], entity, me))
            <==> Cut(name, " ").None?
  {
    var line := "* " + name + " " + action;
    assert line[0] == '*' && line[1] == ' ' && HasPrefix(line, "* ");
    assert line[2..] == name + " " + action;
    CutBefore(name, " ", action);
  }

  lemma ChatIff(m: Message, entity: string, me: string)
    requires Complete(m) && Loggable(m) && !IsEvent(m)
    ensures !HasPrefix(Format(m), "*** ")
    ensures ParseChat(Format(m), entity, me) == Some(Normal(m, entity, me)) <==> WellFormed(m)
  {
    var name, text := m.prefix.name, m.params[1];
    var stars := "*** ";
    assert stars[0] == '*' && stars[1] == '*';
    if ToUpper(m.command) == "NOTICE" {
      assert Format(m)[0] == '-';
      NoticeIff(name, text, entity, me);
    } else if Action(m).Some? {
      assert Format(m)[1] == ' ';
      ActionIff(name, Action(m).value, entity, me);
    } else {
      assert Format(m)[0] == '<';
      PlainIff(name, text, entity, me);
    }
  }

  lemma UnmarshalStamped(c: Clock, s: string, entity: string, me: string, events: bool)
    requires c.Valid()
    ensures UnmarshalLine(Stamped(c, s), entity, me, events) ==
            match ParseBody(s, entity, me, events) case None => Ignored case Some(msg) => Line(msg, c)
  {
    ScanStamp(c, s);
    StampLength(c, s);
  }

  lemma BodyIff(m: Message, entity: string, me: string)
    requires Complete(m) && Loggable(m)
    ensures ParseBody(Format(m), entity, me, true) == Some(Normal(m, entity, me)) <==> WellFormed(m)
    ensures Format(m) != ""
  {
    if IsEvent(m) {
      assert Format(m)[4..] == EventBody(m);
      EventIff(m, entity, me);
    } else {
      ChatIff(m, entity, me);
    }
  }

  /** A logged message is read back in its normal form exactly when it is well formed, whatever its kind. */
  lemma RoundTripIff(m: Message, c: Clock, entity: string, me: string)
    requires Complete(m) && Loggable(m) && c.Valid()
    ensures UnmarshalLine(MarshalLine(m, c), entity, me, true) == Line(Normal(m, entity, me), c) <==> WellFormed(m)
  {
    BodyIff(m, entity, me);
    UnmarshalStamped(c, Format(m), entity, me, true);
  }

  lemma EventNotChat(m: Message, entity: string, me: string)
    requires Complete(m) && IsEvent(m)
    ensures ParseChat(Format(m), entity, me).None?
  {
    assert Format(m)[0] == '*' && Format(m)[1] == '*';
    assert "<"[0] == '<' && "-"[0] == '-' && "* "[1] == ' ';
  }

  /** Without events, exactly the PRIVMSG and NOTICE lines are loaded and every other line is passed over. */
  lemma EventsSkipped(m: Message, c: Clock, entity: string, me: string)
    requires Complete(m) && Loggable(m) && WellFormed(m) && c.Valid()
    ensures UnmarshalLine(MarshalLine(m, c), entity, me, false) ==
            if IsEvent(m) then Ignored else Line(Normal(m, entity, me), c)
  {
    UnmarshalStamped(c, Format(m), entity, me, false);
    BodyIff(m, entity, me);
    if IsEvent(m) {
      EventNotChat(m, entity, me);
    } else {
      ChatIff(m, entity, me);
    }
  }

  lemma UpperTwice(s: string)
    ensures ToUpper(ToUpper(s)) == ToUpper(s)
  {
  }

  lemma {:induction false} TrimRightEnd(s: string, c: char)
    ensures TrimRight(s, c) == "" || TrimRight(s, c)[|TrimRight(s, c)| - 1] != c
  {
    if s != "" && s[|s| - 1] == c {
      TrimRightEnd(s[..|s| - 1], c);
    }
  }

  /** Taking off the delimiters around an ACTION. */
  lemma TrimAction(action: string)
    requires action == "" || action[|action| - 1] != CTCP
    ensures var text := [CTCP] + "ACTION " + action + [CTCP];
            TrimRight(TrimLeft(text, CTCP), CTCP) == "ACTION" + " " + action
  {
    var text, inner := [CTCP] + "ACTION " + action + [CTCP], "ACTION" + " " + action;
    assert text[1..] == inner + [CTCP] && inner[0] == 'A';
    assert TrimLeft(text, CTCP) == inner + [CTCP];
    assert (inner + [CTCP])[..|inner|] == inner;
    assert TrimRight(inner, CTCP) == inner;
  }

  /** The words of an ACTION do not end in a delimiter. */
  lemma ActionEnd(text: string)
    requires ActionText(text).Some?
    ensures var action := ActionText(text).value; action == "" || action[|action| - 1] != CTCP
  {
    var action, body := ActionText(text).value, TrimRight(TrimLeft(text, CTCP), CTCP);
    TrimRightEnd(TrimLeft(text, CTCP), CTCP);
    CutParts(body, " ");
    assert action != "" ==> action[|action| - 1] == body[|body| - 1];
  }

  /** The text an ACTION is read back as is itself an ACTION with the same words. */
  lemma ActionStable(text: string)
    requires ActionText(text).Some?
    ensures ActionText([CTCP] + "ACTION " + ActionText(text).value + [CTCP]) == ActionText(text)
  {
    var action := ActionText(text).value;
    ActionEnd(text);
    TrimAction(action);
    EventSubject("ACTION", action, "");
    assert ToUpper("ACTION") == "ACTION";
  }

  lemma NormalKeeps(m: Message, entity: string, me: string)
    requires Complete(m) && Loggable(m) && WellFormed(m)
    ensures var n := Normal(m, entity, me);
            n.prefix.name == m.prefix.name && ToUpper(n.command) == ToUpper(m.command) && Complete(n)
  {
    UpperTwice(m.command);
    assert Normal(m, entity, me).command == ToUpper(m.command);
  }

  /** An ACTION whose command is not in upper case, which is logged as it is. */
  predicate RawAction(m: Message) {
    m.command != "PRIVMSG" && ToUpper(m.command) == "PRIVMSG" && ActionText(Param(m, 1)).Some?
  }

  lemma ChatStableIff(m: Message, entity: string, me: string)
    requires Complete(m) && Loggable(m) && WellFormed(m) && ToUpper(m.command) == "PRIVMSG"
    ensures Complete(Normal(m, entity, me))
    ensures Format(Normal(m, entity, me)) == Format(m) <==> !RawAction(m)
  {
    var n := Normal(m, entity, me);
    NormalKeeps(m, entity, me);
    if Action(m).Some? {
      ActionStable(m.params[1]);
    } else if RawAction(m) {
      assert Format(n)[0] == '*' && Format(m)[0] == '<';
    }
  }

  /**
   The normal form loses nothing the log holds: logging it again gives the same line, unless the message is an ACTION
   whose command is not in upper case, which becomes one with the next line.
   */
  lemma NormalStableIff(m: Message, entity: string, me: string)
    requires Complete(m) && Loggable(m) && WellFormed(m)
    ensures Complete(Normal(m, entity, me))
    ensures Format(Normal(m, entity, me)) == Format(m) <==> !RawAction(m)
  {
    var n := Normal(m, entity, me);
    NormalKeeps(m, entity, me);
    if IsEvent(m) {
      if ToUpper(m.command) == "MODE" {
        assert n.params[1..] == m.params[1..];
      }
      assert EventBody(n) == EventBody(m);
    } else if ToUpper(m.command) == "PRIVMSG" {
      ChatStableIff(m, entity, me);
    }
  }
}
