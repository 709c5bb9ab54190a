/**
 ISUPPORT synchronisation: the bouncer sends its client the difference between what it announced before
 and what holds now, escaped and packed into RPL_ISUPPORT messages; the receiver's rules turn its view
 into exactly the new map.
 */
module Isupport {
  import opened Sorting
  import opened Text

  /** Tokens by name, with a value or without. */
  type View = map<string, Option<string>>

  const MAX_TOKENS := 15 - 2

  // ----- Escaping -----

  function EncodeChar(c: char): string {
    if c == ' ' then "\\x20" else if c == '\\' then "\\x5C" else [c]
  }

  function Encode(s: string): string {
    if s == "" then "" else EncodeChar(s[0]) + Encode(s[1..])
  }

  function Decode(s: string): string {
    if s == "" then ""
    else if "\\x20" <= s then " " + Decode(s[4..])
    else if "\\x5C" <= s then "\\" + Decode(s[4..])
    else [s[0]] + Decode(s[1..])
  }

  lemma DecodeFirst(c: char, rest: string)
    ensures Decode(EncodeChar(c) + rest) == [c] + Decode(rest)
  {
    var s := EncodeChar(c) + rest;
    if c == ' ' || c == '\\' {
      assert s[4..] == rest;
      assert c == '\\' ==> s[2] == '5';
    } else {
      assert s[0] == c && s[1..] == rest;
    }
  }

  lemma {:induction false} DecodeEncode(s: string)
    ensures Decode(Encode(s)) == s
  {
    if s != "" {
      DecodeEncode(s[1..]);
      DecodeFirst(s[0], Encode(s[1..]));
    }
  }

  lemma {:induction false} EncodeConcat(a: string, b: string)
    ensures Encode(a + b) == Encode(a) + Encode(b)
  {
    if a == "" {
      assert a + b == b;
    } else {
      assert (a + b)[1..] == a[1..] + b && (a + b)[0] == a[0];
      EncodeConcat(a[1..], b);
      Assoc(EncodeChar(a[0]), Encode(a[1..]), Encode(b));
    }
  }

  lemma {:induction false} EncodePlain(s: string)
    requires Free(s, ' ') && Free(s, '\\')
    ensures Encode(s) == s
  {
    if s != "" {
      EncodePlain(s[1..]);
      assert [s[0]] + s[1..] == s;
    }
  }

  // ----- Names -----

  /** How the receiver spells a token name: a vendor prefix in lower case, the rest in upper case. */
  function Spell(name: string): string {
    match Cut(name, "/")
    case Some((vendor, key)) => ToLower(vendor) + "/" + ToUpper(key)
    case None => ToUpper(name)
  }

  /** A name that is spelled that way and can stand at the beginning of a token. */
  predicate Normal(name: string) {
    && Spell(name) == name && !HasPrefix(name, "-") && !HasPrefix(name, ":")
    && Free(name, '=') && Free(name, ' ') && Free(name, '\\')
  }

  /** A name that can be announced with this value: a token that is only a name needs one. */
  predicate Sendable(name: string, value: Option<string>) {
    Normal(name) && (value.None? ==> name != "")
  }

  /** What a parameter of a message other than the last one can be (section 2.3.1 of RFC 1459). */
  predicate Middle(param: string) {
    param != "" && param[0] != ':' && Free(param, ' ')
  }

  lemma SpellLength(name: string)
    ensures |Spell(name)| == |name|
  {
  }

  lemma SpellFree(name: string)
    requires Free(name, '=')
    ensures Free(Spell(name), '=')
  {
    CutParts(name, "/");
    if Cut(name, "/").Some? {
      var (a, b) := Cut(name, "/").value;
      assert Free(a, '=') && Free(b, '=') by {
        assert forall c | c in a || c in b :: c in name;
      }
    }
  }

  // ----- Receiving -----

  function Lookup(view: View, name: string): Option<Option<string>> {
    if name in view then Some(view[name]) else None
  }

  function Put(view: View, name: string, entry: Option<Option<string>>): View {
    match entry case Some(v) => view[name := v] case None => view - {name}
  }

  /** One token of a received RPL_ISUPPORT message. */
  function Apply(view: View, token: string): View {
    if HasPrefix(token, "-") then view - {Spell(token[1..])}
    else
      match Cut(token, "=")
      case Some((name, value)) => view[Spell(name) := Some(Decode(value))]
      case None => view[Spell(token) := None]
  }

  function ApplyAll(view: View, tokens: seq<string>): View {
    if tokens == [] then view
    else Apply(ApplyAll(view, tokens[..|tokens| - 1]), tokens[|tokens| - 1])
  }

  lemma {:induction false} ApplyConcat(view: View, a: seq<string>, b: seq<string>)
    ensures ApplyAll(view, a + b) == ApplyAll(ApplyAll(view, a), b)
  {
    if b == [] {
      assert a + b == a;
    } else {
      var n := |b| - 1;
      assert (a + b)[..|a + b| - 1] == a + b[..n];
      ApplyConcat(view, a, b[..n]);
    }
  }

  /** The name and the value of a token that sets something. */
  function Parts(token: string): (string, string) {
    match Cut(token, "=")
    case Some((name, value)) => (Spell(name), Decode(value))
    case None => (Spell(token), "")
  }

  /** handleChanModes wants four lists. */
  predicate GoodChanModes(value: string) {
    |Split(value, ',')| >= 4
  }

  /** handleMemberships wants nothing, or as many prefixes behind the parentheses as modes within. */
  predicate GoodPrefix(value: string) {
    value == "" ||
    (value[0] == '(' && match Cut(value, ")") case Some((modes, prefixes)) => |value| == 2 * |modes| case None => false)
  }

  /** The receiver gives up on a message after this token. */
  predicate Rejected(token: string) {
    !HasPrefix(token, "-") &&
    var (name, value) := Parts(token);
    (name == "CHANMODES" && !GoodChanModes(value)) || (name == "PREFIX" && !GoodPrefix(value))
  }

  /** The tokens of a message that take effect. */
  function Taken(tokens: seq<string>): (r: seq<string>)
    ensures r <= tokens
  {
    if tokens == [] then []
    else [tokens[0]] + if Rejected(tokens[0]) then [] else Taken(tokens[1..])
  }

  lemma {:induction false} TakenAt(tokens: seq<string>, i: nat)
    requires i <= |tokens| && forall j | 0 <= j < i :: !Rejected(tokens[j])
    ensures i == |tokens| ==> Taken(tokens) == tokens
    ensures i < |tokens| && Rejected(tokens[i]) ==> Taken(tokens) == tokens[..i + 1]
    decreases i
  {
    if i > 0 {
      assert forall j | 0 <= j < i - 1 :: tokens[1..][j] == tokens[j + 1];
      TakenAt(tokens[1..], i - 1);
      assert i < |tokens| ==> [tokens[0]] + tokens[1..][..i] == tokens[..i + 1];
    }
  }

  /** The first tokens were applied and none of them rejected. */
  ghost predicate Handled(before: View, tokens: seq<string>, i: nat, view: View) {
    && i <= |tokens| && view == ApplyAll(before, tokens[..i])
    && forall j | 0 <= j < i :: !Rejected(tokens[j])
  }

  lemma HandledNext(before: View, tokens: seq<string>, i: nat, view: View)
    requires Handled(before, tokens, i, view) && i < |tokens|
    ensures !Rejected(tokens[i]) ==> Handled(before, tokens, i + 1, Apply(view, tokens[i]))
    ensures Rejected(tokens[i]) ==> Apply(view, tokens[i]) == ApplyAll(before, Taken(tokens)) && tokens[i] in tokens
  {
    assert tokens[..i + 1][..i] == tokens[..i];
    TakenAt(tokens, i);
  }

  lemma HandledAll(before: View, tokens: seq<string>, view: View)
    requires Handled(before, tokens, |tokens|, view)
    ensures view == ApplyAll(before, Taken(tokens)) && forall t <- tokens :: !Rejected(t)
  {
    TakenAt(tokens, |tokens|);
    assert tokens[..|tokens|] == tokens;
  }

  /** The receiving connection: its own name, the tokens, and a closing text. */
  class Receiver {
    var isupport: View

    constructor ()
      ensures isupport == map[]
    {
      isupport := map[];
    }

    method HandleIsupport(params: seq<string>) returns (ok: bool)
      modifies this
      ensures ok <==> |params| >= 2 && forall t <- Tokens(params) :: !Rejected(t)
      ensures isupport == ApplyAll(old(isupport), Taken(Tokens(params)))
    {
      if |params| < 2 {
        return false;
      }
      ok := true;
      var tokens := params[1..|params| - 1];
      for i := 0 to |tokens|
        invariant Handled(old(isupport), tokens, i, isupport)
      {
        HandledNext(old(isupport), tokens, i, isupport);
        var err := HandleToken(tokens[i]);
        if err {
          return false;
        }
      }
      HandledAll(old(isupport), tokens, isupport);
    }

    method HandleToken(token: string) returns (err: bool)
      modifies this
      ensures isupport == Apply(old(isupport), token) && err == Rejected(token)
    {
      var negate := HasPrefix(token, "-");
      var parameter, value, hasValue := if negate then token[1..] else token, "", false;
      if !negate {
        match Cut(token, "=")
        case Some((before, after)) => parameter, value, hasValue := before, after, true;
        case None =>
      }
      parameter := Spell(parameter);
      value := Decode(value);
      if hasValue {
        isupport := isupport[parameter := Some(value)];
      } else if !negate {
        isupport := isupport[parameter := None];
      } else {
        isupport := isupport - {parameter};
      }
      err := false;
      if parameter == "CHANMODES" && !negate {
        err := !GoodChanModes(value);
      } else if parameter == "PREFIX" && !negate {
        err := !GoodPrefix(value);
      }
    }
  }

  // ----- Sending the difference -----

  function Token(name: string, value: Option<string>): string {
    match value case Some(v) => name + "=" + v case None => name
  }

  /** What changed: names with their new value, and a dash in front of names that are gone. */
  ghost predicate AreChanges(changed: View, before: View, latest: View) {
    && (forall k <- latest :: Lookup(before, k) != Lookup(latest, k) ==> k in changed && changed[k] == latest[k])
    && (forall k <- before :: k !in latest ==> "-" + k in changed && changed["-" + k] == None)
    && (forall c <- changed ::
          || (c in latest && Lookup(before, c) != Lookup(latest, c))
          || (HasPrefix(c, "-") && c[1..] in before && c[1..] !in latest))
  }

  ghost predicate AllNormal(view: View) {
    forall k <- view :: Sendable(k, view[k])
  }

  /** The token that carries a name from one view to the next. */
  function TokenFor(latest: View, name: string): string {
    if name in latest then Token(name, latest[name]) else "-" + name
  }

  predicate Differs(before: View, latest: View, name: string) {
    Lookup(before, name) != Lookup(latest, name)
  }

  /** The name a token is about. */
  function Subject(token: string): string {
    if HasPrefix(token, "-") then token[1..]
    else
      match Cut(token, "=")
      case Some((name, _)) => name
      case None => token
  }

  /** A token that brings its name up to date, for a name that needs it. */
  predicate IsChange(token: string, before: View, latest: View) {
    Differs(before, latest, Subject(token)) && token == Encode(TokenFor(latest, Subject(token)))
  }

  /** The tokens are those of the names that differ, all of them, in whatever order. */
  ghost predicate Announces(tokens: seq<string>, before: View, latest: View) {
    && (forall t <- tokens :: IsChange(t, before, latest))
    && (forall k :: Differs(before, latest, k) ==> Encode(TokenFor(latest, k)) in tokens)
  }

  // ----- What one token does -----

  lemma ValueTokenText(name: string, value: string)
    ensures Encode(Token(name, Some(value))) == Encode(name) + "=" + Encode(value)
    ensures !HasPrefix(name, "-") ==> !HasPrefix(Encode(name) + "=" + Encode(value), "-")
  {
    EncodeConcat(name + "=", value);
    EncodeConcat(name, "=");
    assert Encode("=") == "=";
    assert (Encode(name) + "=" + Encode(value))[0] == if name == "" then '=' else EncodeChar(name[0])[0];
  }

  lemma ValueToken(view: View, name: string, value: string)
    requires Normal(name)
    ensures Apply(view, Encode(Token(name, Some(value)))) == view[name := Some(value)]
  {
    ValueTokenText(name, value);
    EncodePlain(name);
    CutParts(name, "=");
    CutBefore(name, "=", Encode(value));
    DecodeEncode(value);
  }

  lemma PlainToken(view: View, name: string)
    requires Normal(name)
    ensures Apply(view, Encode(Token(name, None))) == view[name := None]
  {
    EncodePlain(name);
    CutParts(name, "=");
  }

  lemma DashToken(view: View, name: string)
    requires Normal(name)
    ensures Apply(view, Encode("-" + name)) == view - {name}
  {
    var token := "-" + name;
    EncodePlain(token);
    assert token[1..] == name;
  }

  lemma TokenEffect(view: View, latest: View, name: string)
    requires Normal(name)
    ensures Apply(view, Encode(TokenFor(latest, name))) == Put(view, name, Lookup(latest, name))
  {
    if name in latest {
      match latest[name]
      case Some(v) => ValueToken(view, name, v);
      case None => PlainToken(view, name);
    } else {
      DashToken(view, name);
    }
  }

  lemma TokenSubject(latest: View, name: string)
    requires Normal(name)
    ensures Subject(Encode(TokenFor(latest, name))) == name
  {
    CutParts(name, "=");
    EncodePlain(name);
    if name !in latest {
      EncodePlain("-" + name);
    } else if latest[name].Some? {
      ValueTokenText(name, latest[name].value);
      CutBefore(name, "=", Encode(latest[name].value));
    }
  }

  // ----- What all tokens do -----

  lemma ChangeStep(view: View, before: View, latest: View, token: string, name: string)
    requires AllNormal(before) && AllNormal(latest) && IsChange(token, before, latest)
    ensures Lookup(Apply(view, token), name) ==
            if name == Subject(token) then Lookup(latest, name) else Lookup(view, name)
  {
    TokenEffect(view, latest, Subject(token));
  }

  /** Each name ends with its latest entry if its token was received and keeps the earlier entry otherwise. */
  lemma {:induction false} Pointwise(tokens: seq<string>, before: View, latest: View, name: string)
    requires AllNormal(before) && AllNormal(latest)
    requires forall t <- tokens :: IsChange(t, before, latest)
    ensures Lookup(ApplyAll(before, tokens), name) ==
            if exists t <- tokens :: Subject(t) == name then Lookup(latest, name) else Lookup(before, name)
  {
    if tokens != [] {
      var rest, last := tokens[..|tokens| - 1], tokens[|tokens| - 1];
      assert tokens == rest + [last];
      Pointwise(rest, before, latest, name);
      ChangeStep(ApplyAll(before, rest), before, latest, last, name);
    }
  }

  lemma SyncedAt(tokens: seq<string>, before: View, latest: View, name: string)
    requires AllNormal(before) && AllNormal(latest) && Announces(tokens, before, latest)
    ensures Lookup(ApplyAll(before, tokens), name) == Lookup(latest, name)
  {
    Pointwise(tokens, before, latest, name);
    if Differs(before, latest, name) {
      TokenSubject(latest, name);
    }
  }

  lemma SameLookups(a: View, b: View)
    requires forall k :: Lookup(a, k) == Lookup(b, k)
    ensures a == b
  {
    forall k
      ensures k in a <==> k in b
      ensures k in a ==> k in b && a[k] == b[k]
    {
      assert Lookup(a, k) == Lookup(b, k);
    }
  }

  /** In sync: whoever held the earlier view and receives the announced tokens holds the latest view. */
  lemma InSync(tokens: seq<string>, before: View, latest: View)
    requires AllNormal(before) && AllNormal(latest) && Announces(tokens, before, latest)
    ensures ApplyAll(before, tokens) == latest
  {
    forall k
      ensures Lookup(ApplyAll(before, tokens), k) == Lookup(latest, k)
    {
      SyncedAt(tokens, before, latest, k);
    }
    SameLookups(ApplyAll(before, tokens), latest);
  }

  // ----- A receiver that gives up on a message -----

  /** The tokens among the parameters of one RPL_ISUPPORT message. */
  function Tokens(params: seq<string>): seq<string> {
    if |params| < 2 then [] else params[1..|params| - 1]
  }

  function Content(msgs: seq<seq<string>>): seq<string> {
    if msgs == [] then [] else Content(msgs[..|msgs| - 1]) + Tokens(msgs[|msgs| - 1])
  }

  /** The tokens of a series of messages that take effect. */
  function Received(msgs: seq<seq<string>>): seq<string> {
    if msgs == [] then [] else Received(msgs[..|msgs| - 1]) + Taken(Tokens(msgs[|msgs| - 1]))
  }

  predicate Distinct(s: seq<string>) {
    forall i, j | 0 <= i < j < |s| :: s[i] != s[j]
  }

  /** No token is rejected unless it is the last one of its message. */
  ghost predicate AllTaken(msgs: seq<seq<string>>) {
    forall m <- msgs :: Taken(Tokens(m)) == Tokens(m)
  }

  lemma {:induction false} ReceivedContent(msgs: seq<seq<string>>)
    ensures forall t <- Received(msgs) :: t in Content(msgs)
    ensures AllTaken(msgs) ==> Received(msgs) == Content(msgs)
  {
    if msgs != [] {
      ReceivedContent(msgs[..|msgs| - 1]);
    }
  }

  lemma DistinctParts(a: seq<string>, b: seq<string>)
    requires Distinct(a + b)
    ensures Distinct(a) && Distinct(b) && forall x <- a :: x !in b
  {
    forall i, j | 0 <= i < j < |a| ensures a[i] != a[j] {
      assert (a + b)[i] == a[i] && (a + b)[j] == a[j];
    }
    forall i, j | 0 <= i < j < |b| ensures b[i] != b[j] {
      assert (a + b)[|a| + i] == b[i] && (a + b)[|a| + j] == b[j];
    }
    forall i, j | 0 <= i < |a| && 0 <= j < |b| ensures a[i] != b[j] {
      assert (a + b)[i] == a[i] && (a + b)[|a| + j] == b[j];
    }
  }

  lemma FirstLeft(tokens: seq<string>) returns (t: string)
    requires Distinct(tokens) && Taken(tokens) != tokens
    ensures t in tokens && t !in Taken(tokens)
  {
    var n := |Taken(tokens)|;
    t := tokens[n];
    assert tokens == tokens[..n] + tokens[n..] && t == tokens[n..][0];
    DistinctParts(tokens[..n], tokens[n..]);
  }

  /** Otherwise some token takes no effect. */
  lemma {:induction false} Dropped(msgs: seq<seq<string>>) returns (t: string)
    requires Distinct(Content(msgs)) && !AllTaken(msgs)
    ensures t in Content(msgs) && t !in Received(msgs)
  {
    var init, last := msgs[..|msgs| - 1], msgs[|msgs| - 1];
    assert msgs == init + [last];
    DistinctParts(Content(init), Tokens(last));
    if Taken(Tokens(last)) == Tokens(last) {
      t := Dropped(init);
    } else {
      ReceivedContent(init);
      t := FirstLeft(Tokens(last));
    }
  }

  /**
   Whoever held the earlier view and gives up on messages with a bad value holds the latest view exactly if no bad
   value has another token behind it in its message.
   */
  lemma InSyncIff(msgs: seq<seq<string>>, before: View, latest: View)
    requires AllNormal(before) && AllNormal(latest) && Announces(Content(msgs), before, latest) &&
             Distinct(Content(msgs))
    ensures ApplyAll(before, Received(msgs)) == latest <==> AllTaken(msgs)
  {
    ReceivedContent(msgs);
    if AllTaken(msgs) {
      InSync(Content(msgs), before, latest);
    } else {
      var t := Dropped(msgs);
      Pointwise(Received(msgs), before, latest, Subject(t));
    }
  }

  // ----- The sender -----

  /** The tokens of a map, in whatever order. */
  ghost predicate Carries(tokens: seq<string>, isupport: View) {
    && (forall t <- tokens :: exists c <- isupport :: t == Token(c, isupport[c]))
    && (forall c <- isupport :: Token(c, isupport[c]) in tokens)
  }

  ghost predicate OneEach(isupport: View) {
    forall c, d | c in isupport && d in isupport && Token(c, isupport[c]) == Token(d, isupport[d]) :: c == d
  }

  function EncodeAll(tokens: seq<string>): seq<string> {
    seq(|tokens|, i requires 0 <= i < |tokens| => Encode(tokens[i]))
  }

  /** The token of a change. */
  lemma ChangeToken(changed: View, before: View, latest: View, c: string) returns (k: string)
    requires AllNormal(before) && AllNormal(latest) && AreChanges(changed, before, latest) && c in changed
    ensures Differs(before, latest, k) && Normal(k) && Token(c, changed[c]) == TokenFor(latest, k)
    ensures c == if k in latest then k else "-" + k
    ensures Subject(Encode(TokenFor(latest, k))) == k
  {
    k := if c in latest then c else c[1..];
    assert c !in latest ==> c == "-" + k;
    TokenSubject(latest, k);
  }

  lemma ChangesOneEach(changed: View, before: View, latest: View)
    requires AllNormal(before) && AllNormal(latest) && AreChanges(changed, before, latest)
    ensures OneEach(changed)
  {
    forall c, d | c in changed && d in changed && Token(c, changed[c]) == Token(d, changed[d])
      ensures c == d
    {
      var _ := ChangeToken(changed, before, latest, c);
      var _ := ChangeToken(changed, before, latest, d);
    }
  }

  lemma ChangesAnnounced(changed: View, before: View, latest: View, tokens: seq<string>)
    requires AllNormal(before) && AllNormal(latest) && AreChanges(changed, before, latest) && Carries(tokens, changed)
    ensures Announces(EncodeAll(tokens), before, latest)
  {
    forall t | t in EncodeAll(tokens)
      ensures IsChange(t, before, latest)
    {
      var i :| 0 <= i < |tokens| && t == Encode(tokens[i]);
      assert tokens[i] in tokens;
      var c :| c in changed && tokens[i] == Token(c, changed[c]);
      var _ := ChangeToken(changed, before, latest, c);
    }
    forall k | Differs(before, latest, k)
      ensures Encode(TokenFor(latest, k)) in EncodeAll(tokens)
    {
      var c := if k in latest then k else "-" + k;
      assert Token(c, changed[c]) in tokens && Token(c, changed[c]) == TokenFor(latest, k);
      var i :| 0 <= i < |tokens| && tokens[i] == TokenFor(latest, k);
      assert EncodeAll(tokens)[i] == Encode(tokens[i]);
    }
  }

  lemma EncodeAllDistinct(tokens: seq<string>)
    requires Distinct(tokens)
    ensures Distinct(EncodeAll(tokens))
  {
    forall i, j | 0 <= i < j < |tokens|
      ensures Encode(tokens[i]) != Encode(tokens[j])
    {
      DecodeEncode(tokens[i]);
      DecodeEncode(tokens[j]);
    }
  }

  lemma {:induction false} EncodeNoSpace(s: string)
    ensures Free(Encode(s), ' ')
  {
    if s != "" {
      EncodeNoSpace(s[1..]);
    }
  }

  /** Every token of a change can stand in a message. */
  lemma ChangeMiddle(token: string, before: View, latest: View)
    requires AllNormal(before) && AllNormal(latest) && IsChange(token, before, latest)
    ensures Middle(token)
  {
    var k := Subject(token);
    EncodeNoSpace(TokenFor(latest, k));
    EncodePlain(k);
    if k !in latest {
      EncodePlain("-" + k);
    } else if latest[k].Some? {
      ValueTokenText(k, latest[k].value);
    }
  }

  predicate Fits(msgs: seq<seq<string>>) {
    forall m <- msgs :: 3 <= |m| <= MAX_TOKENS + 2
  }

  method CollectTokens(isupport: View) returns (tokens: seq<string>)
    ensures Carries(tokens, isupport) && (OneEach(isupport) ==> Distinct(tokens))
  {
    tokens := [];
    var todo := isupport.Keys;
    while todo != {}
      invariant todo <= isupport.Keys
      invariant forall t <- tokens :: exists c <- isupport.Keys - todo :: t == Token(c, isupport[c])
      invariant forall c <- isupport.Keys - todo :: Token(c, isupport[c]) in tokens
      invariant OneEach(isupport) ==> Distinct(tokens)
    {
      var k :| k in todo;
      assert OneEach(isupport) ==> Token(k, isupport[k]) !in tokens;
      tokens := tokens + [Token(k, isupport[k])];
      todo := todo - {k};
    }
  }

  lemma {:induction false} DistinctIff(s: seq<string>)
    ensures Distinct(s) <==> forall x :: multiset(s)[x] <= 1
  {
    if s != [] {
      var init, x := s[..|s| - 1], s[|s| - 1];
      assert s == init + [x];
      DistinctIff(init);
      if Distinct(s) {
        assert x !in init;
      } else if Distinct(init) {
        assert x in init;
        assert multiset(s)[x] == multiset(init)[x] + 1;
      } else {
        var y :| multiset(init)[y] > 1;
        assert multiset(s)[y] > 1;
      }
    }
  }

  /** GenerateIsupport: sorted tokens, at most fifteen parameters in a message, and none without a token. */
  method GenerateIsupport(isupport: View) returns (msgs: seq<seq<string>>, ghost all: seq<string>)
    ensures Fits(msgs) && Content(msgs) == EncodeAll(all)
    ensures Sorted(all, NameLess) && Carries(all, isupport) && (OneEach(isupport) ==> Distinct(all))
  {
    var collected := CollectTokens(isupport);
    NamesOrdered();
    var tokens := Sort(collected, NameLess);
    SameTokens(collected, tokens);
    all := tokens;
    msgs := Pack(tokens);
  }

  /** Sorting neither adds nor doubles a token. */
  lemma SameTokens(a: seq<string>, b: seq<string>)
    requires multiset(a) == multiset(b)
    ensures (Distinct(a) <==> Distinct(b)) && forall t :: t in a <==> t in b
  {
    DistinctIff(a);
    DistinctIff(b);
    forall t ensures t in a <==> t in b {
      assert t in a <==> t in multiset(a);
      assert t in b <==> t in multiset(b);
    }
  }

  /** One RPL_ISUPPORT message. */
  function MessageOf(tokens: seq<string>): seq<string> {
    ["*"] + EncodeAll(tokens) + ["are supported"]
  }

  lemma PackNext(msgs: seq<seq<string>>, tokens: seq<string>, n: nat)
    requires n <= |tokens|
    ensures Content(msgs + [MessageOf(tokens[..n])]) + EncodeAll(tokens[n..]) == Content(msgs) + EncodeAll(tokens)
  {
    var m, a, b := MessageOf(tokens[..n]), EncodeAll(tokens[..n]), EncodeAll(tokens[n..]);
    assert Tokens(m) == a;
    assert (msgs + [m])[..|msgs|] == msgs;
    assert EncodeAll(tokens) == a + b;
    Assoc(Content(msgs), a, b);
  }

  method Pack(all: seq<string>) returns (msgs: seq<seq<string>>)
    ensures Fits(msgs) && Content(msgs) == EncodeAll(all)
  {
    var tokens := all;
    msgs := [];
    while |tokens| > 0
      invariant Fits(msgs) && Content(msgs) + EncodeAll(tokens) == EncodeAll(all)
    {
      var n := if |tokens| > MAX_TOKENS then MAX_TOKENS else |tokens|;
      PackNext(msgs, tokens, n);
      msgs, tokens := msgs + [MessageOf(tokens[..n])], tokens[n..];
    }
    assert Content(msgs) + [] == Content(msgs);
  }

  /** The client connection, and what it was told so far. */
  class Downstream {
    var isupport: View
    var registered: bool
    // The capability to be told before the end of registration.
    var extended: bool

    constructor (extended: bool)
      ensures isupport == map[] && !registered && this.extended == extended
    {
      isupport, registered := map[], false;
      this.extended := extended;
    }

    method Diff(latest: View) returns (changed: View)
      ensures AllNormal(isupport) && AllNormal(latest) ==> AreChanges(changed, isupport, latest)
    {
      changed := map[];
      var todo := latest.Keys;
      while todo != {}
        invariant todo <= latest.Keys
        invariant forall c :: c in changed <==> c in latest && c !in todo && Differs(isupport, latest, c)
        invariant forall c <- changed :: changed[c] == latest[c]
      {
        var k :| k in todo;
        if !(k in isupport && isupport[k] == latest[k]) {
          changed := changed[k := latest[k]];
        }
        todo := todo - {k};
      }
      ghost var added := changed;
      todo := isupport.Keys;
      while todo != {}
        invariant todo <= isupport.Keys
        invariant forall k | k in isupport && k !in todo && k !in latest ::
                    "-" + k in changed && changed["-" + k] == None
        invariant forall c <- changed :: c in added || (HasPrefix(c, "-") && c[1..] in isupport && c[1..] !in latest)
        invariant forall c <- added :: c in changed && (!HasPrefix(c, "-") ==> changed[c] == added[c])
      {
        var k :| k in todo;
        if k !in latest {
          assert ("-" + k)[1..] == k;
          changed := changed["-" + k := None];
        }
        todo := todo - {k};
      }
    }

    /**
     updateIsupport: once it may be told, any receiver that held what was announced before and takes every token ends
     with the latest view.
     */
    method UpdateIsupport(latest: View) returns (msgs: seq<seq<string>>)
      modifies this`isupport
      ensures !registered && !extended ==> isupport == old(isupport) && msgs == []
      ensures registered || extended ==> isupport == latest && Fits(msgs)
      ensures Announced(msgs, old(isupport), isupport)
    {
      if !registered && !extended {
        NothingSent(isupport);
        msgs := [];
        return;
      }
      msgs := SendChanges(latest);
      isupport := latest;
    }

    method SendChanges(latest: View) returns (msgs: seq<seq<string>>)
      ensures Fits(msgs) && Announced(msgs, isupport, latest)
    {
      var changed := Diff(latest);
      ghost var all;
      msgs, all := GenerateIsupport(changed);
      if AllNormal(isupport) && AllNormal(latest) {
        ChangesUpdate(changed, isupport, latest, all, msgs);
      }
    }
  }

  /** Messages that announce the latest view, each token once and fit to be sent. */
  ghost predicate Updates(msgs: seq<seq<string>>, before: View, latest: View) {
    && (forall t <- Content(msgs) :: Middle(t))
    && (ApplyAll(before, Received(msgs)) == latest <==> AllTaken(msgs))
    && (GoodValues(latest) ==> AllTaken(msgs))
  }

  /** If the names can be announced, they are. */
  ghost predicate Announced(msgs: seq<seq<string>>, before: View, latest: View) {
    AllNormal(before) && AllNormal(latest) ==> Updates(msgs, before, latest)
  }

  lemma NothingSent(view: View)
    ensures Announced([], view, view)
  {
  }

  lemma ChangesUpdate(changed: View, before: View, latest: View, all: seq<string>, msgs: seq<seq<string>>)
    requires AllNormal(before) && AllNormal(latest) && AreChanges(changed, before, latest)
    requires Carries(all, changed) && (OneEach(changed) ==> Distinct(all)) && Content(msgs) == EncodeAll(all)
    ensures Updates(msgs, before, latest)
  {
    ChangesAnnounced(changed, before, latest, all);
    ChangesOneEach(changed, before, latest);
    EncodeAllDistinct(all);
    InSyncIff(msgs, before, latest);
    forall t | t in Content(msgs)
      ensures Middle(t) && (GoodValues(latest) ==> !Rejected(t))
    {
      ChangeMiddle(t, before, latest);
      if GoodValues(latest) {
        GoodTaken(t, before, latest);
      }
    }
    if GoodValues(latest) {
      NoneRejected(msgs);
    }
  }

  lemma {:induction false} ContentHas(msgs: seq<seq<string>>, i: nat, t: string)
    requires i < |msgs| && t in Tokens(msgs[i])
    ensures t in Content(msgs)
    decreases |msgs|
  {
    var n := |msgs| - 1;
    if i < n {
      ContentHas(msgs[..n], i, t);
    }
  }

  lemma NoneRejected(msgs: seq<seq<string>>)
    requires forall t <- Content(msgs) :: !Rejected(t)
    ensures AllTaken(msgs)
  {
    forall m | m in msgs ensures Taken(Tokens(m)) == Tokens(m) {
      var i :| 0 <= i < |msgs| && msgs[i] == m;
      forall j | 0 <= j < |Tokens(m)| ensures !Rejected(Tokens(m)[j]) {
        ContentHas(msgs, i, Tokens(m)[j]);
      }
      TakenAt(Tokens(m), |Tokens(m)|);
    }
  }

  /** The values the receiver looks into are good ones. */
  predicate GoodValues(view: View) {
    && ("CHANMODES" in view ==> view["CHANMODES"].Some? && GoodChanModes(view["CHANMODES"].value))
    && ("PREFIX" in view && view["PREFIX"].Some? ==> GoodPrefix(view["PREFIX"].value))
  }

  /** A change to good values is never rejected. */
  lemma GoodTaken(token: string, before: View, latest: View)
    requires AllNormal(before) && AllNormal(latest) && IsChange(token, before, latest) && GoodValues(latest)
    ensures !Rejected(token)
  {
    var k := Subject(token);
    CutParts(k, "=");
    EncodePlain(k);
    if k in latest && latest[k].Some? {
      ValueTokenText(k, latest[k].value);
      CutBefore(k, "=", Encode(latest[k].value));
      DecodeEncode(latest[k].value);
    } else if k !in latest {
      EncodePlain("-" + k);
    }
  }

  method UpdateAndReceive(dc: Downstream, rc: Receiver, view: View)
    requires AllNormal(dc.isupport) && AllNormal(view)
    modifies dc`isupport, rc
    ensures dc.isupport == if dc.registered || dc.extended then view else old(dc.isupport)
    ensures GoodValues(view) && old(rc.isupport == dc.isupport) ==> rc.isupport == dc.isupport
  {
    var msgs := dc.UpdateIsupport(view);
    Receive(rc, msgs);
  }

  /**
   Over any series of views, the client registering at some point, the receiver follows the sender as long as the
   values it looks into are good ones.
   */
  method Follow(views: seq<View>, extended: bool, registering: nat) returns (dc: Downstream, rc: Receiver)
    requires forall v <- views :: AllNormal(v)
    ensures fresh(dc) && fresh(rc)
    ensures (forall v <- views :: GoodValues(v)) ==> rc.isupport == dc.isupport
    ensures views != [] && (extended || registering < |views|) ==> dc.isupport == views[|views| - 1]
  {
    dc := new Downstream(extended);
    rc := new Receiver();
    for i := 0 to |views|
      invariant fresh(dc) && fresh(rc) && AllNormal(dc.isupport)
      invariant dc.extended == extended && (dc.registered <==> registering < i)
      invariant (forall v <- views[..i] :: GoodValues(v)) ==> rc.isupport == dc.isupport
      invariant i > 0 && (extended || registering < i) ==> dc.isupport == views[i - 1]
    {
      if i == registering {
        dc.registered := true;
      }
      assert views[..i + 1] == views[..i] + [views[i]];
      UpdateAndReceive(dc, rc, views[i]);
    }
    assert views[..|views|] == views;
  }

  lemma ReceivedStep(view: View, msgs: seq<seq<string>>, i: nat)
    requires i < |msgs|
    ensures ApplyAll(view, Received(msgs[..i + 1])) ==
            ApplyAll(ApplyAll(view, Received(msgs[..i])), Taken(Tokens(msgs[i])))
  {
    assert msgs[..i + 1][..i] == msgs[..i];
    ApplyConcat(view, Received(msgs[..i]), Taken(Tokens(msgs[i])));
  }

  method Receive(rc: Receiver, msgs: seq<seq<string>>)
    modifies rc
    ensures rc.isupport == ApplyAll(old(rc.isupport), Received(msgs))
  {
    for i := 0 to |msgs|
      invariant rc.isupport == ApplyAll(old(rc.isupport), Received(msgs[..i]))
    {
      ReceivedStep(old(rc.isupport), msgs, i);
      var _ := rc.HandleIsupport(msgs[i]);
    }
    assert msgs[..|msgs|] == msgs;
  }

  const PREFIX := "PREFIX"

  lemma PrefixFree()
    ensures Free(PREFIX, '/') && Free(PREFIX, '=')
  {
  }

  lemma PrefixName()
    ensures Spell(PREFIX) == PREFIX && Cut(PREFIX, "=").None?
  {
    PrefixFree();
    CutParts(PREFIX, "/");
    CutParts(PREFIX, "=");
    assert ToUpper(PREFIX) == PREFIX;
  }

  lemma BadPrefix(value: string)
    requires !GoodPrefix(Decode(value))
    ensures Rejected(PREFIX + "=" + value)
  {
    PrefixName();
    CutBefore(PREFIX, "=", value);
  }

  /** Whatever comes behind a bad list of prefixes is lost, and nothing before it. */
  lemma BehindBadPrefix(front: seq<string>, value: string, behind: seq<string>)
    requires (forall t <- front :: !Rejected(t)) && !GoodPrefix(Decode(value))
    ensures Taken(front + [PREFIX + "=" + value] + behind) == front + [PREFIX + "=" + value]
  {
    var token := PREFIX + "=" + value;
    BadPrefix(value);
    TakenAt(front + [token] + behind, |front|);
    assert (front + [token] + behind)[..|front| + 1] == front + [token];
  }

  // ----- Which names can be announced -----

  lemma {:induction false} EncodeLength(s: string)
    ensures |Encode(s)| >= |s|
    ensures |Encode(s)| == |s| <==> Free(s, ' ') && Free(s, '\\')
    ensures Free(s, '=') ==> Free(Encode(s), '=')
  {
    if s != "" {
      EncodeLength(s[1..]);
      assert s == [s[0]] + s[1..];
    }
  }

  /** The token of a name is fit to be sent and sets that name alone. */
  ghost predicate Arrives(name: string, value: Option<string>) {
    var token := Encode(Token(name, value));
    Middle(token) && Apply(map[], token) == map[name := value]
  }

  /** A name arrives, with a value or without, exactly if it is normal, and not empty unless it has a value. */
  lemma NameArrivesIff(name: string, value: Option<string>)
    ensures Arrives(name, value) <==> Sendable(name, value)
  {
    EncodeNoSpace(Token(name, value));
    EncodeHead(name);
    if value.Some? {
      ValueTokenText(name, value.value);
      if Normal(name) {
        ValueToken(map[], name, value.value);
      } else if !HasPrefix(name, ":") {
        NameLost(name, value.value);
      }
    } else if Normal(name) {
      EncodePlain(name);
      PlainToken(map[], name);
    } else if !HasPrefix(name, ":") {
      BareLost(name);
    }
  }

  lemma EncodeHead(name: string)
    ensures (Encode(name) == "" <==> name == "") && (HasPrefix(Encode(name), ":") <==> HasPrefix(name, ":"))
  {
    if name != "" {
      assert Encode(name)[0] == EncodeChar(name[0])[0];
    }
  }

  lemma BareLost(name: string)
    requires !Normal(name) && !HasPrefix(name, ":")
    ensures name !in Apply(map[], Encode(name))
  {
    var token := Encode(name);
    EncodeLength(name);
    if !HasPrefix(token, "-") {
      if Cut(token, "=").Some? {
        CutParts(token, "=");
        SpellFree(Cut(token, "=").value.0);
        assert '=' in name;
      } else {
        WholeLost(name);
      }
    }
  }

  lemma WholeLost(name: string)
    requires !Normal(name) && !HasPrefix(name, ":") && !HasPrefix(Encode(name), "-") && Cut(Encode(name), "=").None?
    ensures Spell(Encode(name)) != name
  {
    EncodeLength(name);
    SpellLength(Encode(name));
    if Free(name, ' ') && Free(name, '\\') {
      EncodePlain(name);
      CutParts(name, "=");
    }
  }

  lemma NameLost(name: string, value: string)
    requires !Normal(name) && !HasPrefix(name, ":")
    ensures name !in Apply(map[], Encode(Token(name, Some(value))))
  {
    var token := Encode(Token(name, Some(value)));
    ValueTokenText(name, value);
    EncodeLength(name);
    if !HasPrefix(token, "-") {
      CutParts(token, "=");
      var (got, _) := Cut(token, "=").value;
      SpellFree(got);
      SpellLength(got);
      if Free(name, '=') {
        CutParts(Encode(name), "=");
        CutBefore(Encode(name), "=", Encode(value));
        if Free(name, ' ') && Free(name, '\\') {
          EncodePlain(name);
        }
      }
    }
  }
}
