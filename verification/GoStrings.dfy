// The string functions of the Go standard library that the parsers rely on.
// A Go string is a sequence of bytes; here one char stands for one byte.

module GoStrings {
  import opened Prelude

  // strings.IndexByte: the first position of ch, or -1.
  function IndexByte(s: string, ch: char): (i: int)
    ensures -1 <= i < |s|
    ensures 0 <= i ==> s[i] == ch && ch !in s[..i]
    ensures i < 0 <==> ch !in s
  {
    if s == "" then -1
    else if s[0] == ch then 0
    else
      var i := IndexByte(s[1..], ch);
      if i < 0 then -1 else i + 1
  }

  // The last position of ch, or -1.
  function LastIndexByte(s: string, ch: char): (i: int)
    ensures -1 <= i < |s|
    ensures 0 <= i ==> s[i] == ch && ch !in s[i + 1..]
    ensures i < 0 <==> ch !in s
  {
    if s == "" then -1
    else if s[|s| - 1] == ch then |s| - 1
    else LastIndexByte(s[..|s| - 1], ch)
  }

  // ---- strconv ----

  predicate IsDigit(ch: char) {
    '0' <= ch <= '9'
  }

  predicate AllDigits(s: string) {
    forall i :: 0 <= i < |s| ==> IsDigit(s[i])
  }

  function Digits(n: nat): (s: string)
    ensures s != "" && AllDigits(s)
  {
    var last := [('0' as int + n % 10) as char];
    if n < 10 then last else Digits(n / 10) + last
  }

  function DecimalValue(s: string): (n: int)
    requires AllDigits(s)
    ensures n >= 0
  {
    if s == "" then 0
    else 10 * DecimalValue(s[..|s| - 1]) + (s[|s| - 1] as int - '0' as int)
  }

  function Itoa(n: int): string {
    if n < 0 then "-" + Digits(-n) else Digits(n)
  }

  const MIN_INT64 := -0x8000_0000_0000_0000
  const MAX_INT64 := 0x7FFF_FFFF_FFFF_FFFF

  // An optional sign, at least one digit and nothing else, within 64 bits.
  function Atoi(s: string): Option<int> {
    var signed := s != "" && (s[0] == '-' || s[0] == '+');
    var digits := if signed then s[1..] else s;
    if digits == "" || !AllDigits(digits) then None
    else
      var n: int := if signed && s[0] == '-' then -DecimalValue(digits) else DecimalValue(digits);
      if MIN_INT64 <= n <= MAX_INT64 then Some(n) else None
  }

  lemma {:induction false} DecimalRoundTrip(n: nat)
    ensures DecimalValue(Digits(n)) == n
  {
    if n >= 10 {
      DecimalRoundTrip(n / 10);
      var last := [('0' as int + n % 10) as char];
      assert (Digits(n / 10) + last)[..|Digits(n / 10)|] == Digits(n / 10);
    }
  }

  function InRange(n: int): Option<int> {
    if MIN_INT64 <= n <= MAX_INT64 then Some(n) else None
  }

  lemma AtoiDigits(digits: string)
    requires digits != "" && AllDigits(digits)
    ensures Atoi(digits) == InRange(DecimalValue(digits))
    ensures Atoi("-" + digits) == InRange(-DecimalValue(digits))
  {
    assert IsDigit(digits[0]);
    assert ("-" + digits)[1..] == digits;
  }

  // Printing and reading back is the identity on the machine integers.
  lemma AtoiItoa(n: int)
    ensures Atoi(Itoa(n)) == if MIN_INT64 <= n <= MAX_INT64 then Some(n) else None
  {
    var abs := if n < 0 then -n else n;
    AtoiDigits(Digits(abs));
    DecimalRoundTrip(abs);
  }

  lemma ItoaSign(n: int)
    ensures Itoa(n)[0] == '-' <==> n < 0
  {
    if n >= 0 {
      assert IsDigit(Itoa(n)[0]);
    }
  }

  lemma ItoaInjective(m: int, n: int)
    requires Itoa(m) == Itoa(n)
    ensures m == n
  {
    ItoaSign(m);
    ItoaSign(n);
    DecimalRoundTrip(if m < 0 then -m else m);
    DecimalRoundTrip(if n < 0 then -n else n);
    if m < 0 {
      assert Digits(-m) == Itoa(m)[1..] == Itoa(n)[1..] == Digits(-n);
    }
  }

  lemma ItoaChars(n: int, ch: char)
    requires ch in Itoa(n)
    ensures ch == '-' || IsDigit(ch)
  {
  }

  // ---- net ----

  // An address with a colon in it is bracketed.
  function JoinHostPort(host: string, port: string): string {
    if IndexByte(host, ':') >= 0 then "[" + host + "]:" + port else host + ":" + port
  }

  datatype SplitResult = HostPort(host: string, port: string) | AddrError(reason: string)

  // net.SplitHostPort: "host:port" or "[host]:port".
  function SplitHostPort(hostport: string): SplitResult {
    var i := LastIndexByte(hostport, ':');
    if i < 0 then AddrError("missing port in address")
    else if hostport[0] == '[' then
      var end := IndexByte(hostport, ']');
      if end < 0 then AddrError("missing ']' in address")
      else if end + 1 == |hostport| then AddrError("missing port in address")
      else if end + 1 != i then
        AddrError(if hostport[end + 1] == ':' then "too many colons in address" else "missing port in address")
      else if IndexByte(hostport[1..], '[') >= 0 then AddrError("unexpected '[' in address")
      else if IndexByte(hostport[end + 1..], ']') >= 0 then AddrError("unexpected ']' in address")
      else HostPort(hostport[1..end], hostport[i + 1..])
    else if IndexByte(hostport[..i], ':') >= 0 then AddrError("too many colons in address")
    else if IndexByte(hostport, '[') >= 0 then AddrError("unexpected '[' in address")
    else if IndexByte(hostport, ']') >= 0 then AddrError("unexpected ']' in address")
    else HostPort(hostport[..i], hostport[i + 1..])
  }

  predicate BracketFree(s: string) {
    '[' !in s && ']' !in s
  }

  lemma {:induction false} LastIndexAt(pre: string, ch: char, post: string)
    requires ch !in post
    ensures LastIndexByte(pre + [ch] + post, ch) == |pre|
  {
    var s := pre + [ch] + post;
    assert s[|pre|] == ch;
    assert s[|pre| + 1..] == post;
    assert forall k :: |pre| < k < |s| ==> s[k] == post[k - |pre| - 1];
    forall k | 0 <= k <= |pre| ensures ch in s[k..] {
      assert s[k..][|pre| - k] == ch;
    }
  }

  lemma FirstIndexAt(pre: string, ch: char, post: string)
    requires ch !in pre
    ensures IndexByte(pre + [ch] + post, ch) == |pre|
  {
    var s := pre + [ch] + post;
    assert s[|pre|] == ch;
    assert forall k :: 0 <= k < |pre| ==> s[k] == pre[k];
    forall k | |pre| < k < |s| ensures ch in s[..k] {
      assert s[..k][|pre|] == ch;
    }
  }

  lemma BracketedPieces(host: string, port: string)
    ensures var joined := "[" + host + "]:" + port;
            && joined == ("[" + host + "]") + [':'] + port
            && joined == ("[" + host) + [']'] + (":" + port)
            && joined[1..] == host + "]:" + port
            && joined[1..|host| + 1] == host
            && joined[|host| + 2..] == ":" + port
            && joined[|host| + 3..] == port
  {
  }

  lemma {:induction false} SplitBracketed(host: string, port: string)
    requires BracketFree(host) && BracketFree(port) && ':' !in port
    ensures SplitHostPort("[" + host + "]:" + port) == HostPort(host, port)
  {
    hide IndexByte, LastIndexByte;
    BracketedPieces(host, port);
    LastIndexAt("[" + host + "]", ':', port);
    FirstIndexAt("[" + host, ']', ":" + port);
  }

  lemma {:induction false} SplitPlain(host: string, port: string)
    requires BracketFree(host) && BracketFree(port) && ':' !in port && ':' !in host
    ensures SplitHostPort(host + ":" + port) == HostPort(host, port)
  {
    hide IndexByte, LastIndexByte;
    var joined := host + ":" + port;
    assert joined == host + [':'] + port;
    LastIndexAt(host, ':', port);
    assert joined[..|host|] == host;
    assert joined[|host| + 1..] == port;
  }

  // Joining and splitting give back every bracket-free host, an IPv6 literal
  // with its colons included.
  lemma {:induction false} SplitJoin(host: string, port: string)
    requires BracketFree(host) && BracketFree(port) && ':' !in port
    ensures SplitHostPort(JoinHostPort(host, port)) == HostPort(host, port)
  {
    hide IndexByte, SplitHostPort;
    if IndexByte(host, ':') >= 0 {
      SplitBracketed(host, port);
    } else {
      SplitPlain(host, port);
    }
  }

  // ---- strings ----

  // strings.Split on a one-byte separator.
  function Split(s: string, sep: char): (parts: seq<string>)
    ensures parts != []
  {
    var i := IndexByte(s, sep);
    if i < 0 then [s] else [s[..i]] + Split(s[i + 1..], sep)
  }

  function Joined(parts: seq<string>, sep: char): string {
    if parts == [] then "" else if |parts| == 1 then parts[0] else parts[0] + [sep] + Joined(parts[1..], sep)
  }

  lemma JoinedCons(part: string, parts: seq<string>, sep: char)
    requires parts != []
    ensures Joined([part] + parts, sep) == part + [sep] + Joined(parts, sep)
  {
    assert ([part] + parts)[1..] == parts;
  }

  ghost predicate NoneHolds(parts: seq<string>, sep: char) {
    forall k :: 0 <= k < |parts| ==> sep !in parts[k]
  }

  lemma NoneHoldsCons(part: string, parts: seq<string>, sep: char)
    requires sep !in part && NoneHolds(parts, sep)
    ensures NoneHolds([part] + parts, sep)
  {
  }

  lemma CutAt(s: string, i: nat)
    requires i < |s|
    ensures s[..i] + [s[i]] + s[i + 1..] == s
  {
  }

  // The pieces between the separators, all of them.
  lemma {:induction false} SplitPieces(s: string, sep: char)
    ensures NoneHolds(Split(s, sep), sep) && Joined(Split(s, sep), sep) == s
    decreases |s|
  {
    hide Joined, NoneHolds, IndexByte;
    var i := IndexByte(s, sep);
    if i < 0 {
      SplitNone(s, sep);
    } else {
      var rest := Split(s[i + 1..], sep);
      SplitPieces(s[i + 1..], sep);
      NoneHoldsCons(s[..i], rest, sep);
      JoinedCons(s[..i], rest, sep);
      CutAt(s, i);
    }
  }

  lemma SplitNone(s: string, sep: char)
    requires sep !in s
    ensures NoneHolds([s], sep) && Joined([s], sep) == s
  {
  }

  predicate IsSpace(ch: char) {
    ch == ' ' || 9 as char <= ch <= 13 as char
  }

  function TrimLeft(s: string): (t: string)
    ensures |t| <= |s|
  {
    if s != "" && IsSpace(s[0]) then TrimLeft(s[1..]) else s
  }

  function TrimRight(s: string): (t: string)
    ensures |t| <= |s|
  {
    if s != "" && IsSpace(s[|s| - 1]) then TrimRight(s[..|s| - 1]) else s
  }

  function TrimSpace(s: string): string {
    TrimRight(TrimLeft(s))
  }

  predicate Blank(s: string) {
    forall i :: 0 <= i < |s| ==> IsSpace(s[i])
  }

  lemma {:induction false} TrimLeftIs(s: string)
    ensures var i := |s| - |TrimLeft(s)|; TrimLeft(s) == s[i..] && Blank(s[..i])
    ensures TrimLeft(s) != "" ==> !IsSpace(TrimLeft(s)[0])
  {
    if s != "" && IsSpace(s[0]) {
      TrimLeftIs(s[1..]);
      var i := |s[1..]| - |TrimLeft(s[1..])|;
      assert s[1..][i..] == s[i + 1..] && s[..i + 1] == [s[0]] + s[1..][..i];
    } else {
      assert s[0..] == s;
    }
  }

  lemma {:induction false} TrimRightIs(s: string)
    ensures var n := |TrimRight(s)|; TrimRight(s) == s[..n] && Blank(s[n..])
    ensures TrimRight(s) != "" ==> !IsSpace(TrimRight(s)[|TrimRight(s)| - 1])
  {
    if s != "" && IsSpace(s[|s| - 1]) {
      var init := s[..|s| - 1];
      TrimRightIs(init);
      var n := |TrimRight(init)|;
      assert init[..n] == s[..n] && s[n..] == init[n..] + [s[|s| - 1]];
    } else {
      assert s[..|s|] == s;
    }
  }

  // Blanks are cut off at both ends, and none is left there.
  lemma TrimSpaceIs(s: string)
    ensures exists pre: string, post: string :: s == pre + TrimSpace(s) + post && Blank(pre) && Blank(post)
    ensures var t := TrimSpace(s); t != "" ==> !IsSpace(t[0]) && !IsSpace(t[|t| - 1])
  {
    TrimLeftIs(s);
    TrimRightIs(TrimLeft(s));
    hide TrimLeft, TrimRight, Blank;
    var left, t := TrimLeft(s), TrimSpace(s);
    assert s == s[..|s| - |left|] + left;
    assert left == t + left[|t|..];
    assert s == s[..|s| - |left|] + t + left[|t|..];
  }

  // strings.Contains.
  predicate Contains(s: string, sub: string) {
    sub <= s || (s != "" && Contains(s[1..], sub))
  }

  ghost predicate Around(s: string, sub: string, pre: string, post: string) {
    s == pre + sub + post
  }

  lemma AroundCons(ch: char, s: string, sub: string, pre: string, post: string)
    ensures Around(s, sub, pre, post) ==> Around([ch] + s, sub, [ch] + pre, post)
    ensures Around([ch] + s, sub, pre, post) && pre != "" ==> Around(s, sub, pre[1..], post)
  {
    assert [ch] + (pre + sub + post) == ([ch] + pre) + sub + post;
    if Around([ch] + s, sub, pre, post) && pre != "" {
      assert s == ([ch] + s)[1..] == pre[1..] + sub + post;
    }
  }

  lemma AroundPrefix(s: string, sub: string, pre: string, post: string)
    ensures sub <= s ==> Around(s, sub, "", s[|sub|..])
    ensures Around(s, sub, pre, post) && !(sub <= s) ==> pre != "" && s != ""
  {
    if Around(s, sub, "", post) {
      assert s == sub + post;
    }
  }

  lemma {:induction false} ContainsIs(s: string, sub: string)
    ensures Contains(s, sub) <==> exists pre: string, post: string :: Around(s, sub, pre, post)
  {
    hide Around;
    AroundPrefix(s, sub, "", "");
    if !(sub <= s) && s != "" {
      var ch, rest := s[0], s[1..];
      ContainsIs(rest, sub);
      assert s == [ch] + rest;
      if Contains(rest, sub) {
        var pre: string, post: string :| Around(rest, sub, pre, post);
        AroundCons(ch, rest, sub, pre, post);
      }
    }
    if pre: string, post: string :| Around(s, sub, pre, post) {
      AroundPrefix(s, sub, pre, post);
      if !(sub <= s) {
        AroundCons(s[0], s[1..], sub, pre, post);
      }
    }
  }

  // A number is an optional sign and digits, and it is their decimal value.
  lemma AtoiSyntax(s: string)
    requires Atoi(s).Some?
    ensures exists sign: string, digits: string ::
              && s == sign + digits && sign in {"", "-", "+"} && digits != "" && AllDigits(digits)
              && Atoi(s) == Some(if sign == "-" then -DecimalValue(digits) else DecimalValue(digits))
  {
    var signed := s[0] == '-' || s[0] == '+';
    if signed {
      assert s == [s[0]] + s[1..];
      assert [s[0]] in {"", "-", "+"};
    } else {
      assert s == "" + s;
    }
  }
}
