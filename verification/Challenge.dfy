/** The signing guard (src/xete_mcp/signguard.py): what can be signed at all, and the two challenge
    templates, against the messages they print. */
module Challenge {
  import opened Wrappers
  import Text

  const RESERVED := "xete messaging key derivation v1"
  const MAX_BYTES := 512
  const MAX_AGE := 900.0
  const MAX_FUTURE := 900.0

  // ---- text ----

  predicate OccursAt(s: string, part: string, i: nat) {
    i + |part| <= |s| && s[i..i + |part|] == part
  }

  predicate Contains(s: string, part: string) {
    exists i :: 0 <= i <= |s| && OccursAt(s, part, i)
  }

  predicate StartsWith(s: string, prefix: string) {
    |prefix| <= |s| && s[..|prefix|] == prefix
  }

  /** Printable, or the newline. A character outside ASCII encodes to bytes that are neither. */
  predicate AllowedChar(c: char) {
    ' ' <= c <= '~' || c == '\n'
  }

  predicate AllAllowed(s: string) {
    forall i :: 0 <= i < |s| ==> AllowedChar(s[i])
  }

  /** What the identity key may sign. For text without characters outside ASCII the number of bytes is
      the number of characters, and all other text is refused anyway. */
  predicate Signable(s: string) {
    s != "" && |s| <= MAX_BYTES && !Contains(s, RESERVED) && AllAllowed(s)
  }

  predicate HoldsReserved(s: string, before: string, after: string) {
    s == before + "xete messaging key derivation v1" + after
  }

  /** What can be signed at all: between 1 and 512 printable characters or newlines, among which the reserved
      constant does not stand anywhere. */
  lemma SignableIff(s: string)
    ensures Signable(s) <==>
              && 1 <= |s| <= 512 && (forall i :: 0 <= i < |s| ==> 32 <= s[i] as int <= 126 || s[i] as int == 10)
              && !exists before, after :: HoldsReserved(s, before, after)
  {
    forall before, after | HoldsReserved(s, before, after) ensures Contains(s, RESERVED) {
      assert OccursAt(s, RESERVED, |before|);
    }
    if Contains(s, RESERVED) {
      var i :| 0 <= i <= |s| && OccursAt(s, RESERVED, i);
      assert s == s[..i] + RESERVED + s[i + |RESERVED|..];
      assert HoldsReserved(s, s[..i], s[i + |RESERVED|..]);
    }
  }

  function Split(s: string): (lines: seq<string>)
    ensures |lines| > 0
  {
    if s == "" then [""]
    else
      var front, c := Split(s[..|s| - 1]), s[|s| - 1];
      if c == '\n' then front + [""] else front[..|front| - 1] + [front[|front| - 1] + [c]]
  }

  function Join(lines: seq<string>): string
    requires |lines| > 0
  {
    if |lines| == 1 then lines[0] else Join(lines[..|lines| - 1]) + "\n" + lines[|lines| - 1]
  }

  predicate IsLine(s: string) {
    forall i :: 0 <= i < |s| ==> s[i] != '\n'
  }

  lemma JoinAppend(lines: seq<string>, line: string)
    requires |lines| > 0
    ensures Join(lines + [line]) == Join(lines) + "\n" + line
  {
    assert (lines + [line])[..|lines|] == lines;
  }

  lemma JoinExtend(body: seq<string>, last: string, c: char)
    ensures Join(body + [last + [c]]) == Join(body + [last]) + [c]
  {
    if body == [] {
      assert body + [last + [c]] == [last + [c]] && body + [last] == [last];
    } else {
      JoinAppend(body, last + [c]);
      JoinAppend(body, last);
    }
  }

  lemma EmptyIsLine()
    ensures IsLine("")
  {
  }

  lemma LineGrows(line: string, c: char)
    requires IsLine(line) && c != '\n'
    ensures IsLine(line + [c])
  {
  }

  lemma {:induction false} SplitThenJoin(s: string)
    ensures Join(Split(s)) == s
    ensures forall i :: 0 <= i < |Split(s)| ==> IsLine(Split(s)[i])
  {
    if s != "" {
      var front, c := Split(s[..|s| - 1]), s[|s| - 1];
      SplitThenJoin(s[..|s| - 1]);
      var whole := Split(s);
      hide Join, Split, IsLine;
      assert s == s[..|s| - 1] + [c];
      if c == '\n' {
        JoinAppend(front, "");
        assert Join(front) + "\n" + "" == Join(front) + [c];
        EmptyIsLine();
      } else {
        var body, last := front[..|front| - 1], front[|front| - 1];
        JoinExtend(body, last, c);
        assert body + [last] == front;
        LineGrows(last, c);
      }
    }
  }

  lemma {:induction false} SplitAppend(s: string, line: string)
    requires IsLine(line)
    ensures Split(s + "\n" + line) == Split(s) + [line]
  {
    var all := s + "\n" + line;
    if line == "" {
      assert all[..|all| - 1] == s;
    } else {
      var rest := line[..|line| - 1];
      SplitAppend(s, rest);
      assert all[..|all| - 1] == s + "\n" + rest;
      assert (Split(s) + [rest])[..|Split(s)|] == Split(s);
      assert line == rest + [line[|line| - 1]];
    }
  }

  lemma {:induction false} SplitLine(line: string)
    requires IsLine(line)
    ensures Split(line) == [line]
  {
    if line != "" {
      SplitLine(line[..|line| - 1]);
      assert line == line[..|line| - 1] + [line[|line| - 1]];
    }
  }

  /** Splitting a join of lines gives the lines back, so a text has given lines exactly when it is their
      join. */
  lemma {:induction false} JoinThenSplit(lines: seq<string>)
    requires |lines| > 0 && forall i :: 0 <= i < |lines| ==> IsLine(lines[i])
    ensures Split(Join(lines)) == lines
  {
    var last := lines[|lines| - 1];
    if |lines| == 1 {
      SplitLine(last);
    } else {
      JoinThenSplit(lines[..|lines| - 1]);
      SplitAppend(Join(lines[..|lines| - 1]), last);
      assert lines == lines[..|lines| - 1] + [last];
    }
  }

  // ---- the fields ----

  predicate TokenChar(c: char) {
    'A' <= c <= 'Z' || 'a' <= c <= 'z' || '0' <= c <= '9' || c == '_' || c == '-'
  }

  predicate Token(s: string) {
    8 <= |s| <= 128 && forall i :: 0 <= i < |s| ==> TokenChar(s[i])
  }

  /** `^[A-Za-z0-9_-]{8,128}$` with `match`: the dollar sign also stands before a final newline. */
  predicate NonceMatches(s: string) {
    Token(s) || (|s| > 0 && s[|s| - 1] == '\n' && Token(s[..|s| - 1]))
  }

  predicate Digit(c: char) {
    '0' <= c <= '9'
  }

  predicate Timestamp(s: string) {
    1 <= |s| <= 19 && forall i :: 0 <= i < |s| ==> Digit(s[i])
  }

  function Value(digits: string): int {
    if digits == "" then 0 else 10 * Value(digits[..|digits| - 1]) + (digits[|digits| - 1] as int - '0' as int)
  }

  /** A nonce is 8 to 128 characters, each a letter, a digit, the hyphen or the underscore. */
  lemma TokenIff(s: string)
    ensures Token(s) <==>
              && 8 <= |s| <= 128
              && forall i :: 0 <= i < |s| ==>
                   var code := s[i] as int;
                   65 <= code <= 90 || 97 <= code <= 122 || 48 <= code <= 57 || code == 45 || code == 95
  {
  }

  function Pow10(k: nat): nat {
    if k == 0 then 1 else 10 * Pow10(k - 1)
  }

  lemma {:induction false} DecimalReads(n: nat, k: nat)
    requires k > 0
    ensures |Text.Decimal(n)| > 0 && Value(Text.Decimal(n)) == n && forall i :: 0 <= i < |Text.Decimal(n)| ==> Digit(Text.Decimal(n)[i])
    ensures |Text.Decimal(n)| <= k <==> n < Pow10(k)
  {
    var digits := Text.Decimal(n);
    if n < 10 {
      assert digits[..0] == "";
      if k > 1 {
        Pow10Grows(k - 1);
      }
    } else {
      assert digits[..|digits| - 1] == Text.Decimal(n / 10) && digits[|digits| - 1] == Text.DigitChar(n % 10);
      if k > 1 {
        DecimalReads(n / 10, k - 1);
      } else {
        DecimalReads(n / 10, 1);
      }
    }
  }

  lemma {:induction false} Pow10Grows(k: nat)
    ensures Pow10(k) >= 1
  {
    if k > 0 {
      Pow10Grows(k - 1);
    }
  }

  /** A time printed in decimal is accepted as a timestamp if and only if it has at most 19 digits and lies
      within a quarter of an hour of this machine's clock. */
  lemma PrintedTimeIsTimely(n: nat, now: real)
    ensures Timely(Text.Decimal(n), now)
       <==> n < 10_000_000_000_000_000_000 && now - 900.0 <= n as real <= now + 900.0
  {
    DecimalReads(n, 19);
    assert Pow10(1) == 10 && Pow10(2) == 100 && Pow10(3) == 1_000 && Pow10(4) == 10_000 && Pow10(5) == 100_000;
    assert Pow10(6) == 1_000_000 && Pow10(7) == 10_000_000 && Pow10(8) == 100_000_000 && Pow10(9) == 1_000_000_000;
    assert Pow10(10) == 10_000_000_000 && Pow10(11) == 100_000_000_000 && Pow10(12) == 1_000_000_000_000;
    assert Pow10(13) == 10_000_000_000_000 && Pow10(14) == 100_000_000_000_000 && Pow10(15) == 1_000_000_000_000_000;
    assert Pow10(16) == 10_000_000_000_000_000 && Pow10(17) == 100_000_000_000_000_000;
    assert Pow10(18) == 1_000_000_000_000_000_000 && Pow10(19) == 10_000_000_000_000_000_000;
  }

  /** A timestamp within the allowed skew of this machine's clock, at its edges included. */
  predicate Timely(s: string, now: real) {
    Timestamp(s) && now - MAX_AGE <= Value(s) as real <= now + MAX_FUTURE
  }

  // ---- the validators ----

  datatype Accepted = Accepted(nonce: string, timestamp: int, bound: bool)

  datatype Refusal = NotSignable | BadNonce | WrongShape | BadTimestamp

  const AUTH_HEAD := "XETE authentication"
  const CLAIM_HEAD := "xete alias claim"

  function ValidateAuth(message: string, nonce: string, clientNonce: Option<string>, now: real): Result<Accepted, Refusal> {
    var lines := Split(message);
    if !Signable(message) then Failure(NotSignable)
    else if !NonceMatches(nonce) then Failure(BadNonce)
    else if |lines| != 3 && |lines| != 4 then Failure(WrongShape)
    else if lines[0] != AUTH_HEAD || lines[1] != "Nonce: " + nonce || !StartsWith(lines[2], "Timestamp: ") then Failure(WrongShape)
    else if !Timely(lines[2][11..], now) then Failure(BadTimestamp)
    else if |lines| == 4 && !(clientNonce.Some? && clientNonce.value != "" && lines[3] == "Client-Nonce: " + clientNonce.value)
    then Failure(WrongShape)
    else Success(Accepted(nonce, Value(lines[2][11..]), |lines| == 4))
  }

  function ValidateClaim(message: string, nonce: string, pubkey: string, now: real): Result<Accepted, Refusal> {
    var lines := Split(message);
    if !Signable(message) then Failure(NotSignable)
    else if !NonceMatches(nonce) then Failure(BadNonce)
    else if |lines| != 4 then Failure(WrongShape)
    else if lines[0] != CLAIM_HEAD || lines[1] != "pubkey:" + pubkey || lines[2] != "nonce:" + nonce then Failure(WrongShape)
    else if !StartsWith(lines[3], "ts:") then Failure(WrongShape)
    else if !Timely(lines[3][3..], now) then Failure(BadTimestamp)
    else Success(Accepted(nonce, Value(lines[3][3..]), true))
  }

  // ---- the templates ----

  function AuthLines(nonce: string, timestamp: string, clientNonce: Option<string>): seq<string> {
    [AUTH_HEAD, "Nonce: " + nonce, "Timestamp: " + timestamp]
    + (if clientNonce.Some? then ["Client-Nonce: " + clientNonce.value] else [])
  }

  function ClaimLines(nonce: string, pubkey: string, timestamp: string): seq<string> {
    [CLAIM_HEAD, "pubkey:" + pubkey, "nonce:" + nonce, "ts:" + timestamp]
  }

  lemma NewlineInTail(head: string, s: string)
    requires IsLine(head + s)
    ensures IsLine(s)
  {
    assert forall i :: 0 <= i < |s| ==> (head + s)[|head| + i] == s[i];
  }

  lemma LineOf(head: string, s: string)
    requires IsLine(head) && IsLine(s)
    ensures IsLine(head + s)
  {
  }

  lemma TokenIsLine(s: string)
    requires Token(s) || Timestamp(s)
    ensures IsLine(s)
  {
  }

  /** Printing the template. The nonce that goes in is a plain token and the timestamp plain digits. */
  function PrintAuth(nonce: string, timestamp: string, clientNonce: Option<string>): string {
    Join(AuthLines(nonce, timestamp, clientNonce))
  }

  function PrintClaim(nonce: string, pubkey: string, timestamp: string): string {
    Join(ClaimLines(nonce, pubkey, timestamp))
  }

  lemma AuthSplits(nonce: string, timestamp: string, clientNonce: Option<string>)
    requires Token(nonce) && Timestamp(timestamp) && (clientNonce.Some? ==> IsLine(clientNonce.value))
    ensures Split(PrintAuth(nonce, timestamp, clientNonce)) == AuthLines(nonce, timestamp, clientNonce)
  {
    TokenIsLine(nonce);
    TokenIsLine(timestamp);
    LineOf("Nonce: ", nonce);
    LineOf("Timestamp: ", timestamp);
    if clientNonce.Some? {
      LineOf("Client-Nonce: ", clientNonce.value);
    }
    JoinThenSplit(AuthLines(nonce, timestamp, clientNonce));
  }

  lemma ClaimSplits(nonce: string, pubkey: string, timestamp: string)
    requires Token(nonce) && Timestamp(timestamp) && IsLine(pubkey)
    ensures Split(PrintClaim(nonce, pubkey, timestamp)) == ClaimLines(nonce, pubkey, timestamp)
  {
    TokenIsLine(nonce);
    TokenIsLine(timestamp);
    LineOf("nonce:", nonce);
    LineOf("ts:", timestamp);
    LineOf("pubkey:", pubkey);
    JoinThenSplit(ClaimLines(nonce, pubkey, timestamp));
  }

  /** A nonce that passed the pattern and stands on a line of its own ends in no newline. */
  lemma NonceOnLine(head: string, nonce: string)
    requires NonceMatches(nonce) && IsLine(head + nonce)
    ensures Token(nonce)
  {
    NewlineInTail(head, nonce);
  }

  // ---- exactness ----

  /** The relay challenge is accepted if and only if it is signable and is the template printed with
      the nonce, a plain token, some timestamp inside the window, and as a fourth line either nothing or
      this client's own nonce. */
  lemma AuthIsExact(message: string, nonce: string, clientNonce: Option<string>, now: real)
    ensures ValidateAuth(message, nonce, clientNonce, now).Success? <==>
              && Signable(message) && Token(nonce)
              && exists t: string, own: bool :: Timely(t, now) && PrintsAuth(message, nonce, t, clientNonce, own)
    ensures ValidateAuth(message, nonce, clientNonce, now).Success? ==>
              var a := ValidateAuth(message, nonce, clientNonce, now).value;
              && a.nonce == nonce
              && exists t: string :: Timely(t, now) && Value(t) == a.timestamp && PrintsAuth(message, nonce, t, clientNonce, a.bound)
  {
    hide Signable, Join, Split, Timely, Value;
    var r := ValidateAuth(message, nonce, clientNonce, now);
    if r.Success? {
      AcceptedAuthIsPrinted(message, nonce, clientNonce, now);
    }
    forall t: string, own: bool | Signable(message) && Token(nonce) && Timely(t, now) && PrintsAuth(message, nonce, t, clientNonce, own)
      ensures r.Success?
    {
      PrintedAuthIsAccepted(message, nonce, t, clientNonce, own, now);
    }
  }

  /** The message is the template, with our own nonce on a fourth line or without one. */
  predicate PrintsAuth(message: string, nonce: string, t: string, clientNonce: Option<string>, own: bool) {
    if own then clientNonce.Some? && clientNonce.value != "" && IsLine(clientNonce.value) && message == PrintAuth(nonce, t, clientNonce)
    else message == PrintAuth(nonce, t, None)
  }

  lemma AcceptedAuthIsPrinted(message: string, nonce: string, clientNonce: Option<string>, now: real)
    requires ValidateAuth(message, nonce, clientNonce, now).Success?
    ensures Token(nonce) && Timely(Split(message)[2][11..], now)
    ensures PrintsAuth(message, nonce, Split(message)[2][11..], clientNonce, |Split(message)| == 4)
  {
    hide Signable, Join, Split, Timely, Value, NonceMatches;
    var lines := Split(message);
    SplitThenJoin(message);
    NonceOnLine("Nonce: ", nonce);
    assert lines[2] == "Timestamp: " + lines[2][11..];
    if |lines| == 4 {
      NewlineInTail("Client-Nonce: ", clientNonce.value);
      assert lines == AuthLines(nonce, lines[2][11..], clientNonce);
    } else {
      assert lines == AuthLines(nonce, lines[2][11..], None);
    }
  }

  lemma PrintedAuthIsAccepted(message: string, nonce: string, t: string, clientNonce: Option<string>, own: bool, now: real)
    requires Signable(message) && Token(nonce) && Timely(t, now) && PrintsAuth(message, nonce, t, clientNonce, own)
    ensures ValidateAuth(message, nonce, clientNonce, now) == Success(Accepted(nonce, Value(t), own))
  {
    AuthSplits(nonce, t, if own then clientNonce else None);
    hide Signable, Join, Split, Value;
    assert ("Timestamp: " + t)[11..] == t;
  }

  /** The claim challenge is accepted if and only if it is signable and is the template printed with this
      wallet, the nonce, a plain token, and some timestamp inside the window. */
  lemma ClaimIsExact(message: string, nonce: string, pubkey: string, now: real)
    ensures ValidateClaim(message, nonce, pubkey, now).Success? <==>
              && Signable(message) && Token(nonce) && IsLine(pubkey)
              && exists t: string :: Timely(t, now) && message == PrintClaim(nonce, pubkey, t)
    ensures ValidateClaim(message, nonce, pubkey, now).Success? ==>
              var a := ValidateClaim(message, nonce, pubkey, now).value;
              a.nonce == nonce && exists t: string :: Timely(t, now) && Value(t) == a.timestamp && message == PrintClaim(nonce, pubkey, t)
  {
    hide Signable, Join, Split, Timely, Value;
    var r := ValidateClaim(message, nonce, pubkey, now);
    if r.Success? {
      AcceptedClaimIsPrinted(message, nonce, pubkey, now);
    }
    forall t: string | Signable(message) && Token(nonce) && IsLine(pubkey) && Timely(t, now) && message == PrintClaim(nonce, pubkey, t)
      ensures r.Success?
    {
      PrintedClaimIsAccepted(nonce, pubkey, t, now);
    }
  }

  lemma AcceptedClaimIsPrinted(message: string, nonce: string, pubkey: string, now: real)
    requires ValidateClaim(message, nonce, pubkey, now).Success?
    ensures Token(nonce) && IsLine(pubkey) && Timely(Split(message)[3][3..], now)
    ensures message == PrintClaim(nonce, pubkey, Split(message)[3][3..])
  {
    hide Signable, Join, Split, Timely, Value, NonceMatches;
    var lines := Split(message);
    SplitThenJoin(message);
    NonceOnLine("nonce:", nonce);
    NewlineInTail("pubkey:", pubkey);
    assert lines[3] == "ts:" + lines[3][3..];
    assert lines == ClaimLines(nonce, pubkey, lines[3][3..]);
  }

  lemma PrintedClaimIsAccepted(nonce: string, pubkey: string, t: string, now: real)
    requires Signable(PrintClaim(nonce, pubkey, t)) && Token(nonce) && IsLine(pubkey) && Timely(t, now)
    ensures ValidateClaim(PrintClaim(nonce, pubkey, t), nonce, pubkey, now) == Success(Accepted(nonce, Value(t), true))
  {
    ClaimSplits(nonce, pubkey, t);
    hide Signable, Join, Split, Value;
    assert ("ts:" + t)[3..] == t;
  }

  /** No message is accepted as both. */
  lemma LanguagesAreDisjoint(message: string, nonce: string, other: string, clientNonce: Option<string>, pubkey: string, now: real)
    ensures !(ValidateAuth(message, nonce, clientNonce, now).Success? && ValidateClaim(message, other, pubkey, now).Success?)
  {
    assert AUTH_HEAD[0] != CLAIM_HEAD[0];
  }

  // ---- the templates never need the last line of defence ----

  lemma OccurrenceReads(s: string, part: string, i: nat, k: nat)
    requires OccursAt(s, part, i) && k < |part|
    ensures s[i + k] == part[k]
  {
    assert s[i..i + |part|][k] == s[i + k];
  }

  lemma OccursInPart(a: string, b: string, part: string, i: nat)
    requires IsLine(part) && OccursAt(a + "\n" + b, part, i)
    ensures OccursAt(a, part, i) || (i > |a| && OccursAt(b, part, i - |a| - 1))
  {
    var s := a + "\n" + b;
    assert s[|a|] == '\n';
    if i <= |a| < i + |part| {
      OccurrenceReads(s, part, i, |a| - i);
    } else if i + |part| <= |a| {
      assert s[i..i + |part|] == a[i..i + |part|];
    } else {
      assert s[i..i + |part|] == b[i - |a| - 1..i - |a| - 1 + |part|];
    }
  }

  lemma OccursContains(s: string, part: string, i: nat)
    requires OccursAt(s, part, i)
    ensures Contains(s, part)
  {
  }

  /** Text without a newline occurs in a join only inside one of the lines. */
  lemma {:induction false} OccursInLine(lines: seq<string>, part: string, i: nat) returns (k: nat)
    requires |lines| > 0 && IsLine(part) && OccursAt(Join(lines), part, i)
    ensures k < |lines| && Contains(lines[k], part)
  {
    hide OccursAt, Contains, IsLine;
    k := |lines| - 1;
    if k == 0 {
      OccursContains(lines[0], part, i);
    } else {
      var front := Join(lines[..k]);
      OccursInPart(front, lines[k], part, i);
      if OccursAt(front, part, i) {
        k := OccursInLine(lines[..k], part, i);
      } else {
        OccursContains(lines[k], part, i - |front| - 1);
      }
    }
  }

  /** No space but perhaps at the end of the head. */
  predicate OneSpace(head: string, s: string) {
    && (forall i :: 0 <= i < |head| - 1 ==> head[i] != ' ')
    && (forall i :: 0 <= i < |s| ==> s[i] != ' ')
  }

  /** The reserved constant has two spaces, so it does not fit into a line with at most one. */
  lemma OneSpaceIsNotReserved(head: string, s: string)
    requires OneSpace(head, s)
    ensures !Contains(head + s, RESERVED)
  {
    assert RESERVED[4] == ' ' && RESERVED[14] == ' ';
    forall i | 0 <= i <= |head + s| && OccursAt(head + s, RESERVED, i) ensures false {
      OccurrenceReads(head + s, RESERVED, i, 4);
      OccurrenceReads(head + s, RESERVED, i, 14);
    }
  }

  lemma HeadIsNotReserved()
    ensures !Contains(AUTH_HEAD, RESERVED) && !Contains(CLAIM_HEAD, RESERVED)
  {
    assert |RESERVED| == 32 && |AUTH_HEAD| == 19 && |CLAIM_HEAD| == 16;
  }

  ghost predicate CleanLine(line: string) {
    AllAllowed(line) && !Contains(line, RESERVED)
  }

  function TotalLength(lines: seq<string>): nat {
    if lines == [] then 0 else TotalLength(lines[..|lines| - 1]) + 1 + |lines[|lines| - 1]|
  }

  lemma {:induction false} JoinLength(lines: seq<string>)
    requires |lines| > 0
    ensures |Join(lines)| + 1 == TotalLength(lines)
  {
    if |lines| > 1 {
      JoinLength(lines[..|lines| - 1]);
    }
  }

  lemma {:induction false} JoinAllowed(lines: seq<string>)
    requires |lines| > 0 && forall i :: 0 <= i < |lines| ==> AllAllowed(lines[i])
    ensures AllAllowed(Join(lines))
  {
    if |lines| > 1 {
      JoinAllowed(lines[..|lines| - 1]);
    }
  }

  lemma ReservedIsLine()
    ensures IsLine(RESERVED)
  {
  }

  /** Clean lines of bounded total length make a signable text. */
  lemma CleanLinesAreSignable(lines: seq<string>)
    requires |lines| > 0 && lines[0] != "" && TotalLength(lines) <= MAX_BYTES
    requires forall i :: 0 <= i < |lines| ==> CleanLine(lines[i])
    ensures Signable(Join(lines))
  {
    hide Contains, OccursAt, IsLine;
    JoinLength(lines);
    JoinAllowed(lines);
    ReservedIsLine();
    if Contains(Join(lines), RESERVED) {
      var i := OccurrenceOf(Join(lines), RESERVED);
      var k := OccursInLine(lines, RESERVED, i);
    }
    if |lines| == 1 {
      assert Join(lines) == lines[0];
    }
  }

  lemma OccurrenceOf(s: string, part: string) returns (i: nat)
    requires Contains(s, part)
    ensures OccursAt(s, part, i)
  {
    i :| 0 <= i <= |s| && OccursAt(s, part, i);
  }

  predicate PlainToken(s: string) {
    |s| <= 128 && forall i :: 0 <= i < |s| ==> TokenChar(s[i])
  }

  lemma FieldIsClean(head: string, s: string)
    requires AllAllowed(head) && OneSpace(head, "") && PlainToken(s)
    ensures CleanLine(head + s)
  {
    OneSpaceIsNotReserved(head, s);
    hide Contains;
  }

  /** Every printed relay challenge passes the last line of defence by itself: it is short, printable, and
      never contains the reserved constant. */
  lemma PrintedAuthIsSignable(nonce: string, t: string, clientNonce: Option<string>)
    requires Token(nonce) && Timestamp(t) && (clientNonce.Some? ==> PlainToken(clientNonce.value))
    ensures Signable(PrintAuth(nonce, t, clientNonce))
  {
    var lines := AuthLines(nonce, t, clientNonce);
    HeadIsNotReserved();
    FieldIsClean("Nonce: ", nonce);
    FieldIsClean("Timestamp: ", t);
    if clientNonce.Some? {
      FieldIsClean("Client-Nonce: ", clientNonce.value);
    }
    AuthLength(nonce, t, clientNonce);
    hide Contains, TotalLength, Signable;
    assert AllAllowed(AUTH_HEAD);
    CleanLinesAreSignable(lines);
  }

  lemma AuthLength(nonce: string, t: string, clientNonce: Option<string>)
    requires |nonce| <= 128 && |t| <= 19 && (clientNonce.Some? ==> |clientNonce.value| <= 128)
    ensures TotalLength(AuthLines(nonce, t, clientNonce)) <= 400
  {
    var three := [AUTH_HEAD, "Nonce: " + nonce, "Timestamp: " + t];
    ThreeLengths(AUTH_HEAD, "Nonce: " + nonce, "Timestamp: " + t);
    if clientNonce.Some? {
      var last := "Client-Nonce: " + clientNonce.value;
      assert (three + [last])[..3] == three;
    } else {
      assert three + [] == three;
    }
  }

  lemma ThreeLengths(a: string, b: string, c: string)
    ensures TotalLength([a, b, c]) == |a| + |b| + |c| + 3
  {
    assert [a, b, c][..2] == [a, b] && [a, b][..1] == [a] && [a][..0] == [];
    assert TotalLength([a]) == 1 + |a|;
    assert TotalLength([a, b]) == TotalLength([a]) + 1 + |b|;
  }

  /** So is every printed claim challenge for a wallet spelled in token characters. */
  lemma PrintedClaimIsSignable(nonce: string, pubkey: string, t: string)
    requires Token(nonce) && Timestamp(t) && PlainToken(pubkey)
    ensures Signable(PrintClaim(nonce, pubkey, t))
  {
    var lines := ClaimLines(nonce, pubkey, t);
    HeadIsNotReserved();
    FieldIsClean("nonce:", nonce);
    FieldIsClean("pubkey:", pubkey);
    FieldIsClean("ts:", t);
    ThreeLengths(CLAIM_HEAD, "pubkey:" + pubkey, "nonce:" + nonce);
    assert lines[..3] == [CLAIM_HEAD, "pubkey:" + pubkey, "nonce:" + nonce];
    assert TotalLength(lines) == TotalLength(lines[..3]) + 1 + |lines[3]|;
    hide Contains, TotalLength, Signable;
    assert AllAllowed(CLAIM_HEAD);
    CleanLinesAreSignable(lines);
  }

  /** Put together: for a wallet spelled in token characters the accepted claim challenges are exactly
      the printed ones. */
  lemma ClaimLanguage(message: string, nonce: string, pubkey: string, now: real)
    requires PlainToken(pubkey)
    ensures ValidateClaim(message, nonce, pubkey, now).Success? <==>
              Token(nonce) && exists t: string :: Timely(t, now) && message == PrintClaim(nonce, pubkey, t)
  {
    ClaimIsExact(message, nonce, pubkey, now);
    assert IsLine(pubkey);
    forall t: string | Token(nonce) && Timely(t, now) && message == PrintClaim(nonce, pubkey, t) ensures Signable(message) {
      PrintedClaimIsSignable(nonce, pubkey, t);
    }
    hide ValidateClaim, PrintClaim, Signable;
  }

  /** For a client nonce made of token characters the accepted relay challenges are exactly the printed
      ones. */
  lemma AuthLanguage(message: string, nonce: string, clientNonce: string, now: real)
    requires PlainToken(clientNonce)
    ensures ValidateAuth(message, nonce, Some(clientNonce), now).Success? <==>
              && Token(nonce)
              && exists t: string :: && Timely(t, now)
                                     && (message == PrintAuth(nonce, t, None)
                                         || (clientNonce != "" && message == PrintAuth(nonce, t, Some(clientNonce))))
  {
    AuthIsExact(message, nonce, Some(clientNonce), now);
    assert IsLine(clientNonce);
    forall t: string, own: bool | Token(nonce) && Timely(t, now) && PrintsAuth(message, nonce, t, Some(clientNonce), own)
      ensures Signable(message)
    {
      PrintedAuthIsSignable(nonce, t, if own then Some(clientNonce) else None);
    }
    hide ValidateAuth, PrintAuth, Signable;
    forall t: string | Timely(t, now) && (message == PrintAuth(nonce, t, None)
                                          || (clientNonce != "" && message == PrintAuth(nonce, t, Some(clientNonce))))
      ensures PrintsAuth(message, nonce, t, Some(clientNonce), false) || PrintsAuth(message, nonce, t, Some(clientNonce), true)
    {
    }
  }
}
