/** The session cookie's token (auth/auth.go): "<expiry>.<mac>".

    `mac` stands for HMAC-SHA256 followed by URL-safe base64; nothing is assumed of it.
    Times are seconds since the Unix epoch where the code calls `Unix`. */
module Session {
  import opened Wrappers

  const MIN_INT64 := -0x8000_0000_0000_0000
  const MAX_INT64 := 0x7fff_ffff_ffff_ffff

  function Digits(n: nat): string {
    if n < 10 then [('0' as int + n) as char] else Digits(n / 10) + [('0' as int + n % 10) as char]
  }

  /** `strconv.FormatInt(n, 10)` */
  function FormatInt(n: int): string {
    if n < 0 then "-" + Digits(-n) else Digits(n)
  }

  predicate IsDigit(c: char) {
    '0' <= c <= '9'
  }

  /** The value of a non-empty run of digits. */
  function DigitsValue(s: string): Option<nat> {
    if s == "" || !IsDigit(s[|s| - 1]) then None
    else
      var d := s[|s| - 1] as int - '0' as int;
      if |s| == 1 then Some(d)
      else
        match DigitsValue(s[..|s| - 1])
        case None => None
        case Some(n) => Some(10 * n + d)
  }

  /** `strconv.ParseInt(s, 10, 64)`: one optional sign, digits, and a range check. */
  function ParseInt(s: string): Option<int> {
    if s == "" then None
    else
      var signed := s[0] == '+' || s[0] == '-';
      match DigitsValue(if signed then s[1..] else s)
      case None => None
      case Some(m) =>
        var n: int := if s[0] == '-' then -(m as int) else m;
        if MIN_INT64 <= n <= MAX_INT64 then Some(n) else None
  }

  /** `strings.SplitN(token, ".", 2)`: nothing unless there are two parts. */
  function SplitAtDot(token: string): Option<(string, string)> {
    if token == "" then None
    else if token[0] == '.' then Some(("", token[1..]))
    else match SplitAtDot(token[1..])
      case None => None
      case Some((payload, sig)) => Some(([token[0]] + payload, sig))
  }

  function Sign(mac: (string, string) -> string, secret: string, expiry: int): string {
    var payload := FormatInt(expiry);
    payload + "." + mac(secret, payload)
  }

  predicate Verify(mac: (string, string) -> string, secret: string, token: string, now: int) {
    match SplitAtDot(token)
    case None => false
    case Some((payload, sig)) =>
      sig == mac(secret, payload) &&
      match ParseInt(payload)
      case None => false
      case Some(expiry) => now < expiry
  }

  // ---------------------------------------------------------------- printing and parsing

  lemma {:induction false} DigitsRoundTrip(n: nat)
    ensures DigitsValue(Digits(n)) == Some(n)
    ensures IsDigit(Digits(n)[0]) && '.' !in Digits(n)
  {
    if n >= 10 {
      DigitsRoundTrip(n / 10);
      assert Digits(n)[..|Digits(n)| - 1] == Digits(n / 10);
    }
  }

  lemma IntRoundTrip(n: int)
    requires MIN_INT64 <= n <= MAX_INT64
    ensures ParseInt(FormatInt(n)) == Some(n) && '.' !in FormatInt(n)
  {
    DigitsRoundTrip(if n < 0 then -n else n);
    if n < 0 {
      assert FormatInt(n)[1..] == Digits(-n);
    }
  }

  lemma {:induction false} LeadingZerosDoNotMatter(digits: string)
    requires DigitsValue(digits).Some?
    ensures DigitsValue("0" + digits) == DigitsValue(digits)
  {
    var s := "0" + digits;
    assert s[..|s| - 1] == "0" + digits[..|digits| - 1];
    if |digits| == 1 {
      assert s[..|s| - 1] == "0";
    } else {
      LeadingZerosDoNotMatter(digits[..|digits| - 1]);
    }
  }

  /** A text of digits, and no other text, has a value. */
  lemma {:induction false} DigitsReadIff(s: string)
    ensures DigitsValue(s).Some? <==> s != "" && forall i :: 0 <= i < |s| ==> '0' <= s[i] <= '9'
  {
    if |s| > 1 {
      var front := s[..|s| - 1];
      DigitsReadIff(front);
      assert forall i :: 0 <= i < |front| ==> front[i] == s[i];
    }
  }

  /** A number is at most one sign and digits, and fits in 64 bits. */
  lemma NumberRead(sign: string, digits: string)
    requires (sign == "" || sign == "+" || sign == "-") && DigitsValue(digits).Some?
    ensures var m: int := DigitsValue(digits).value;
            ParseInt(sign + digits) ==
            if sign == "-" then (if m <= 0x8000_0000_0000_0000 then Some(-m) else None)
            else if m <= 0x7fff_ffff_ffff_ffff then Some(m) else None
  {
    DigitsReadIff(digits);
    var s := sign + digits;
    if sign == "" {
      assert s == digits && '0' <= s[0] <= '9';
    } else {
      assert s[1..] == digits;
    }
  }

  /** Nothing else is read as a number. */
  lemma OnlyNumbersRead(s: string)
    requires ParseInt(s).Some?
    ensures exists sign, digits ::
              (sign == "" || sign == "+" || sign == "-") && DigitsValue(digits).Some? && s == sign + digits
  {
    if s[0] == '+' || s[0] == '-' {
      assert s == [s[0]] + s[1..];
    } else {
      assert s == "" + s;
    }
  }

  // ---------------------------------------------------------------- the token

  lemma {:induction false} SplitsAtFirstDot(payload: string, sig: string)
    requires '.' !in payload
    ensures SplitAtDot(payload + ("." + sig)) == Some((payload, sig))
  {
    var token := payload + ("." + sig);
    if payload == "" {
      assert token[1..] == sig;
    } else {
      assert token[1..] == payload[1..] + ("." + sig);
      SplitsAtFirstDot(payload[1..], sig);
      assert payload == [payload[0]] + payload[1..];
    }
  }

  lemma {:induction false} SplitParts(token: string)
    ensures match SplitAtDot(token)
            case None => '.' !in token
            case Some((payload, sig)) => '.' !in payload && token == payload + ("." + sig)
  {
    if token != "" {
      assert token == [token[0]] + token[1..];
      if token[0] != '.' {
        SplitParts(token[1..]);
      }
    }
  }

  /** A token is accepted exactly when it is some dot-free payload with that payload's own
      mac, and the payload is a signed 64-bit number of seconds still to come. */
  lemma AcceptedIff(mac: (string, string) -> string, secret: string, token: string, now: int)
    ensures Verify(mac, secret, token, now) <==>
            exists payload: string ::
              && '.' !in payload
              && token == payload + ("." + mac(secret, payload))
              && ParseInt(payload).Some?
              && now < ParseInt(payload).value
  {
    SplitParts(token);
    forall payload: string | '.' !in payload && token == payload + ("." + mac(secret, payload))
      ensures SplitAtDot(token) == Some((payload, mac(secret, payload)))
    {
      SplitsAtFirstDot(payload, mac(secret, payload));
    }
  }

  /** A token signed with one secret and checked with another: accepted exactly when it
      has time left and the two secrets give its payload the same mac. */
  lemma CheckedWithAnySecret(mac: (string, string) -> string, signer: string, checker: string, expiry: int, now: int)
    requires MIN_INT64 <= expiry <= MAX_INT64
    ensures Verify(mac, checker, Sign(mac, signer, expiry), now) <==>
            now < expiry && mac(signer, FormatInt(expiry)) == mac(checker, FormatInt(expiry))
  {
    var payload := FormatInt(expiry);
    IntRoundTrip(expiry);
    SplitsAtFirstDot(payload, mac(signer, payload));
    assert Sign(mac, signer, expiry) == payload + ("." + mac(signer, payload));
  }

  /** A signed token verifies until its expiry and never after. */
  lemma TokenRoundTrip(mac: (string, string) -> string, secret: string, expiry: int, now: int)
    requires MIN_INT64 <= expiry <= MAX_INT64
    ensures Verify(mac, secret, Sign(mac, secret, expiry), now) <==> now < expiry
  {
    CheckedWithAnySecret(mac, secret, secret, expiry, now);
  }

  // ---------------------------------------------------------------- the cookie

  const SECOND := 1_000_000_000
  const SESSION_TTL := 30 * 24 * 3600 * SECOND

  /** The cookie value set at `now`, in nanoseconds. */
  function CookieSetAt(mac: (string, string) -> string, secret: string, now: int): string {
    Sign(mac, secret, (now + SESSION_TTL) / SECOND)
  }

  /** A session lasts thirty days from the last whole second before it was set. */
  lemma CookieLifetime(mac: (string, string) -> string, secret: string, now: int, later: int)
    requires MIN_INT64 <= now / SECOND && now / SECOND + 30 * 24 * 3600 <= MAX_INT64
    ensures Verify(mac, secret, CookieSetAt(mac, secret, now), later / SECOND) <==>
            later < now - now % 1_000_000_000 + 30 * 24 * 3600 * 1_000_000_000
  {
    var expiry := (now + SESSION_TTL) / SECOND;
    assert expiry == now / SECOND + 30 * 24 * 3600;
    TokenRoundTrip(mac, secret, expiry, later / SECOND);
  }
}
