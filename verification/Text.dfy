/** The string operations of the Go standard library that the bouncer relies on, and how they undo each other. */
module Text {
  datatype Option<+T> = None | Some(value: T)

  datatype Result<+T> = Ok(value: T) | Err

  lemma Assoc<T>(x: seq<T>, y: seq<T>, z: seq<T>)
    ensures x + y + z == x + (y + z)
  {
  }

  /** string(b) for a byte: the UTF-8 encoding of the rune with that number. */
  function AsRune(c: char): string {
    var n := c as int;
    if n < 0x80 then [c] else [(0xC0 + n / 64) as char, (0x80 + n % 64) as char]
  }

  predicate HasPrefix(s: string, p: string) {
    p <= s
  }

  predicate HasSuffix(s: string, p: string) {
    |p| <= |s| && s[|s| - |p|..] == p
  }

  function TrimPrefix(s: string, p: string): string {
    if HasPrefix(s, p) then s[|p|..] else s
  }

  function TrimSuffix(s: string, p: string): string {
    if HasSuffix(s, p) then s[..|s| - |p|] else s
  }

  /** The text around the first occurrence of `sep` (strings.Cut, and strings.SplitN with a count of two). */
  function Cut(s: string, sep: string): (r: Option<(string, string)>)
    requires sep != ""
    ensures r.Some? ==> |r.value.0| + |sep| + |r.value.1| == |s|
  {
    if |s| < |sep| then None
    else if sep <= s then Some(("", s[|sep|..]))
    else
      match Cut(s[1..], sep)
      case None => None
      case Some((a, b)) => Some(([s[0]] + a, b))
  }

  /** strings.Split by a single character: always at least one part. */
  function Split(s: string, c: char): (parts: seq<string>)
    ensures parts != []
  {
    if s == "" then [""]
    else
      var rest := Split(s[1..], c);
      if s[0] == c then [""] + rest else [[s[0]] + rest[0]] + rest[1..]
  }

  /** strings.Join with a single character. */
  function Join(parts: seq<string>, c: char): string {
    if parts == [] then ""
    else if |parts| == 1 then parts[0]
    else parts[0] + [c] + Join(parts[1..], c)
  }

  lemma {:induction false} JoinSnoc(parts: seq<string>, p: string, c: char)
    ensures Join(parts + [p], c) == if parts == [] then p else Join(parts, c) + [c] + p
  {
    if |parts| > 1 {
      assert (parts + [p])[1..] == parts[1..] + [p] && (parts + [p])[0] == parts[0];
      JoinSnoc(parts[1..], p, c);
      var x, y := parts[0] + [c], Join(parts[1..], c);
      Assoc(x, y, [c]);
      Assoc(x, y + [c], p);
    } else if |parts| == 1 {
      assert (parts + [p])[1..] == [p];
    }
  }

  predicate Free(s: string, c: char) {
    c !in s
  }

  /** A separator no part of which can be the start of another occurrence. */
  predicate Separator(sep: string) {
    |sep| == 1 || (|sep| == 2 && sep[0] != sep[1])
  }

  /** Text before a separator is cut off exactly if it does not contain the separator itself. */
  lemma {:induction false} CutBefore(a: string, sep: string, b: string)
    requires Separator(sep)
    ensures Cut(a, sep).None? ==> Cut(a + sep + b, sep) == Some((a, b))
    ensures Cut(a, sep).Some? ==> Cut(a + sep + b, sep).Some? && |Cut(a + sep + b, sep).value.0| < |a|
    decreases a
  {
    var s := a + sep + b;
    if a == "" {
      assert s == sep + b && s[|sep|..] == b;
    } else {
      assert |a| == 1 ==> s[1] == sep[0];
      assert [s[0]] + a[1..] == a;
      assert s[1..] == a[1..] + sep + b;
      CutBefore(a[1..], sep, b);
    }
  }

  /** What a cut returns, and that it is the first place to cut at a single character. */
  lemma {:induction false} CutParts(s: string, sep: string)
    requires |sep| == 1
    ensures Cut(s, sep).None? <==> Free(s, sep[0])
    ensures Cut(s, sep).Some? ==>
              var (a, b) := Cut(s, sep).value; Free(a, sep[0]) && s == a + sep + b
    decreases s
  {
    if s != "" {
      CutParts(s[1..], sep);
      assert s == [s[0]] + s[1..];
    }
  }

  lemma {:induction false} SplitSingle(s: string, c: char)
    requires Free(s, c)
    ensures Split(s, c) == [s]
  {
    if s != "" {
      SplitSingle(s[1..], c);
      assert [s[0]] + s[1..] == s;
    }
  }

  lemma {:induction false} SplitAppend(a: string, c: char, b: string)
    requires Free(a, c)
    ensures Split(a + [c] + b, c) == [a] + Split(b, c)
    decreases a
  {
    var s := a + [c] + b;
    if a == "" {
      assert s[1..] == b;
    } else {
      assert s[1..] == a[1..] + [c] + b;
      SplitAppend(a[1..], c, b);
      assert [a[0]] + a[1..] == a;
    }
  }

  /** Splitting undoes joining for any non-empty list of parts without the separator. */
  lemma {:induction false} SplitJoin(parts: seq<string>, c: char)
    requires parts != [] && forall p | p in parts :: Free(p, c)
    ensures Split(Join(parts, c), c) == parts
  {
    if |parts| == 1 {
      SplitSingle(parts[0], c);
    } else {
      SplitJoin(parts[1..], c);
      SplitAppend(parts[0], c, Join(parts[1..], c));
    }
  }

  lemma {:induction false} SplitFree(s: string, c: char)
    ensures forall p | p in Split(s, c) :: Free(p, c)
  {
    if s != "" {
      SplitFree(s[1..], c);
      var rest := Split(s[1..], c);
      assert rest[0] in rest && forall p | p in rest[1..] :: p in rest;
    }
  }

  /** Splitting undoes joining exactly for the non-empty lists whose parts are free of the separator. */
  lemma SplitJoinIff(parts: seq<string>, c: char)
    ensures Split(Join(parts, c), c) == parts <==> parts != [] && forall p | p in parts :: Free(p, c)
  {
    if parts != [] && forall p | p in parts :: Free(p, c) {
      SplitJoin(parts, c);
    } else {
      SplitFree(Join(parts, c), c);
    }
  }

  function UpperChar(c: char): char {
    if 'a' <= c <= 'z' then (c as int - 'a' as int + 'A' as int) as char else c
  }

  /** strings.ToUpper on the ASCII range. */
  function ToUpper(s: string): string {
    seq(|s|, i requires 0 <= i < |s| => UpperChar(s[i]))
  }

  function LowerChar(c: char): char {
    if 'A' <= c <= 'Z' then (c as int - 'A' as int + 'a' as int) as char else c
  }

  /** strings.ToLower on the ASCII range. */
  function ToLower(s: string): string {
    seq(|s|, i requires 0 <= i < |s| => LowerChar(s[i]))
  }

  /** unicode.IsSpace. */
  predicate IsSpace(c: char) {
    var n := c as int;
    || 9 <= n <= 13 || n == 0x20 || n == 0x85 || n == 0xA0 || n == 0x1680 || 0x2000 <= n <= 0x200A
    || n == 0x2028 || n == 0x2029 || n == 0x202F || n == 0x205F || n == 0x3000
  }
}
