/** `contentDisposition` (r2/r2.go): the header value that names a download. RFC 6266,
    section 4, gives its form; RFC 8187, section 3.2, that of the extended value. */
module Disposition {
  import opened Wrappers

  /** A Go string: every char stands for one byte. */
  type GoString = s: string | forall c :: c in s ==> c as int < 256

  const LEAD := "attachment; filename="
  const MIDDLE := "; filename*=UTF-8''"

  /** The replacer: CR and LF are dropped, a double quote becomes a single one. */
  function Sanitised(s: string): string {
    if s == "" then ""
    else if s[0] == '\r' || s[0] == '\n' then Sanitised(s[1..])
    else [if s[0] == '\"' then '\'' else s[0]] + Sanitised(s[1..])
  }

  predicate IsAlnum(c: char) {
    'a' <= c <= 'z' || 'A' <= c <= 'Z' || '0' <= c <= '9'
  }

  /** The bytes `url.PathEscape` leaves alone. */
  predicate Unescaped(c: char) {
    IsAlnum(c) || c in "-_.~$&+=:@"
  }

  function HexDigit(n: nat): char
    requires n < 16
  {
    "0123456789ABCDEF"[n]
  }

  function HexValue(c: char): Option<nat> {
    if '0' <= c <= '9' then Some(c as int - '0' as int)
    else if 'A' <= c <= 'F' then Some(c as int - 'A' as int + 10)
    else if 'a' <= c <= 'f' then Some(c as int - 'a' as int + 10)
    else None
  }

  function EscapeByte(c: char): string
    requires c as int < 256
  {
    if Unescaped(c) then [c] else ['%', HexDigit(c as int / 16), HexDigit(c as int % 16)]
  }

  function PathEscape(s: GoString): string {
    if s == "" then ""
    else
      var rest: GoString := s[1..];
      EscapeByte(s[0]) + PathEscape(rest)
  }

  /** The layout of the value: a quoted text between two fixed ones, then the extended text. */
  function Compose(lead: string, quoted: string, middle: string, extended: string): string {
    lead + ("\"" + (quoted + ("\"" + (middle + extended))))
  }

  function ContentDisposition(filename: GoString): string {
    Compose(LEAD, Sanitised(filename), MIDDLE, PathEscape(filename))
  }

  // ---------------------------------------------------------------- a reader of the value

  function PercentDecode(s: string): Option<string> {
    if s == "" then Some("")
    else if s[0] == '%' then
      if |s| < 3 || HexValue(s[1]).None? || HexValue(s[2]).None? then None
      else
        var rest := PercentDecode(s[3..]);
        if rest.None? then None
        else Some([(HexValue(s[1]).value * 16 + HexValue(s[2]).value) as char] + rest.value)
    else
      var rest := PercentDecode(s[1..]);
      if rest.None? then None else Some([s[0]] + rest.value)
  }

  /** Splits at the first `c`, which is dropped. */
  function SplitAt(c: char, s: string): Option<(string, string)> {
    if s == "" then None
    else if s[0] == c then Some(("", s[1..]))
    else match SplitAt(c, s[1..])
      case None => None
      case Some((text, rest)) => Some(([s[0]] + text, rest))
  }

  lemma {:induction false} SplitIsShorter(c: char, s: string)
    ensures SplitAt(c, s).Some? ==> |SplitAt(c, s).value.0| + |SplitAt(c, s).value.1| + 1 == |s|
  {
    if s != "" && s[0] != c {
      SplitIsShorter(c, s[1..]);
    }
  }

  datatype Param = Param(name: string, value: string)

  /** Reads one parameter: a name, an equals sign, and a text in double quotes or up to the
      next semicolon. */
  function ReadParam(s: string): (r: Option<(Param, string)>)
    ensures r.Some? ==> |r.value.1| < |s|
  {
    match SplitAt('=', s)
    case None => None
    case Some((name, v)) =>
      SplitIsShorter('=', s);
      if v != "" && v[0] == '\"' then
        match SplitAt('\"', v[1..])
        case None => None
        case Some((text, rest)) =>
          SplitIsShorter('\"', v[1..]);
          Some((Param(name, text), rest))
      else
        match SplitAt(';', v)
        case None => Some((Param(name, v), ""))
        case Some((text, rest)) =>
          SplitIsShorter(';', v);
          Some((Param(name, text), ";" + rest))
  }

  /** Reads parameters, each after a semicolon and a space. */
  function ReadParams(s: string): Option<seq<Param>>
    decreases |s|
  {
    if s == "" then Some([])
    else if |s| < 2 || s[0] != ';' || s[1] != ' ' then None
    else match ReadParam(s[2..])
      case None => None
      case Some((first, rest)) =>
        match ReadParams(rest)
        case None => None
        case Some(others) => Some([first] + others)
  }

  /** A Content-Disposition value: a type and its parameters (RFC 6266, section 4.1). */
  datatype Value = Value(kind: string, params: seq<Param>)

  function ReadValue(v: string): Option<Value> {
    match SplitAt(';', v)
    case None => Some(Value(v, []))
    case Some((kind, rest)) =>
      match ReadParams(";" + rest)
      case None => None
      case Some(params) => Some(Value(kind, params))
  }

  /** An extended value (RFC 8187, section 3.2): charset, language and bytes. */
  function ReadExtended(v: string): Option<(string, string, string)> {
    match SplitAt('\'', v)
    case None => None
    case Some((charset, a)) =>
      match SplitAt('\'', a)
      case None => None
      case Some((language, b)) =>
        match PercentDecode(b)
        case None => None
        case Some(bytes) => Some((charset, language, bytes))
  }

  function Count(c: char, s: string): nat {
    if s == "" then 0 else (if s[0] == c then 1 else 0) + Count(c, s[1..])
  }

  // ---------------------------------------------------------------- properties

  lemma {:induction false} CountSplits(c: char, a: string, b: string)
    ensures Count(c, a + b) == Count(c, a) + Count(c, b)
  {
    if a == "" {
      assert a + b == b;
    } else {
      assert (a + b)[1..] == a[1..] + b;
      CountSplits(c, a[1..], b);
    }
  }

  lemma {:induction false} CountZeroIff(c: char, s: string)
    ensures Count(c, s) == 0 <==> c !in s
  {
    if s != "" {
      assert s == [s[0]] + s[1..];
      CountZeroIff(c, s[1..]);
    }
  }

  lemma {:induction false} SanitisedIsSafe(s: string)
    ensures '\"' !in Sanitised(s) && '\r' !in Sanitised(s) && '\n' !in Sanitised(s)
    ensures '\\' in Sanitised(s) <==> '\\' in s
  {
    if s != "" {
      assert s == [s[0]] + s[1..];
      SanitisedIsSafe(s[1..]);
    }
  }

  lemma {:induction false} SanitisedSplits(a: string, b: string)
    ensures Sanitised(a + b) == Sanitised(a) + Sanitised(b)
  {
    if a == "" {
      assert a + b == b;
    } else {
      assert (a + b)[1..] == a[1..] + b;
      SanitisedSplits(a[1..], b);
    }
  }

  /** The quoted name is the file's name unless that has a double quote, CR or LF; it is
      shorter by the line characters and by nothing else. */
  lemma {:induction false} SanitisedIsTheNameIff(s: string)
    ensures Sanitised(s) == s <==> '\"' !in s && '\r' !in s && '\n' !in s
    ensures |Sanitised(s)| == |s| - Count('\r', s) - Count('\n', s)
  {
    if s != "" {
      assert s == [s[0]] + s[1..];
      SanitisedIsTheNameIff(s[1..]);
    }
  }

  lemma HexRoundTrip(n: nat)
    requires n < 16
    ensures HexValue(HexDigit(n)) == Some(n) && IsAlnum(HexDigit(n))
  {
  }

  lemma EscapedByte(c: char)
    requires c as int < 256
    ensures '\"' !in EscapeByte(c) && '\r' !in EscapeByte(c) && '\n' !in EscapeByte(c)
  {
    HexRoundTrip(c as int / 16);
    HexRoundTrip(c as int % 16);
  }

  lemma DecodedByte(c: char, rest: string)
    requires c as int < 256 && PercentDecode(rest).Some?
    ensures PercentDecode(EscapeByte(c) + rest) == Some([c] + PercentDecode(rest).value)
  {
    var e := EscapeByte(c) + rest;
    if Unescaped(c) {
      assert e[1..] == rest;
    } else {
      HexRoundTrip(c as int / 16);
      HexRoundTrip(c as int % 16);
      assert e[3..] == rest && e[0] == '%';
      var n := c as int / 16 * 16 + c as int % 16;
      assert n == c as int && n as char == c;
    }
  }

  lemma {:induction false} EscapeIsSafe(s: GoString)
    ensures '\"' !in PathEscape(s) && '\r' !in PathEscape(s) && '\n' !in PathEscape(s)
  {
    if s != "" {
      EscapeIsSafe(s[1..]);
      EscapedByte(s[0]);
    }
  }

  lemma {:induction false} EscapeRoundTrip(s: GoString)
    ensures PercentDecode(PathEscape(s)) == Some(s)
  {
    if s != "" {
      EscapeRoundTrip(s[1..]);
      DecodedByte(s[0], PathEscape(s[1..]));
      assert s == [s[0]] + s[1..];
    }
  }

  lemma {:induction false} SplitsAtFirst(c: char, text: string, rest: string)
    requires c !in text
    ensures SplitAt(c, text + ([c] + rest)) == Some((text, rest))
  {
    var s := text + ([c] + rest);
    if text == "" {
      assert s[1..] == rest;
    } else {
      assert s[1..] == text[1..] + ([c] + rest);
      SplitsAtFirst(c, text[1..], rest);
      assert text == [text[0]] + text[1..];
    }
  }

  lemma {:induction false} NoSplit(c: char, text: string)
    requires c !in text
    ensures SplitAt(c, text) == None
  {
    if text != "" {
      assert text == [text[0]] + text[1..];
      NoSplit(c, text[1..]);
    }
  }

  function QuotedParam(name: string, text: string, rest: string): string {
    name + ("=" + ("\"" + (text + ("\"" + rest))))
  }

  function PlainParam(name: string, v: string): string {
    name + ("=" + v)
  }

  lemma ReadsQuoted(name: string, text: string, rest: string)
    requires '=' !in name && '\"' !in text
    ensures ReadParam(QuotedParam(name, text, rest)) == Some((Param(name, text), rest))
  {
    var v := "\"" + (text + ("\"" + rest));
    SplitsAtFirst('=', name, v);
    assert ['='] + v == "=" + v;
    assert v[1..] == text + (['\"'] + rest);
    SplitsAtFirst('\"', text, rest);
  }

  lemma ReadsPlain(name: string, v: string)
    requires '=' !in name && ';' !in v && '\"' !in v
    ensures ReadParam(PlainParam(name, v)) == Some((Param(name, v), ""))
  {
    SplitsAtFirst('=', name, v);
    assert ['='] + v == "=" + v;
    assert v != "" ==> v[0] in v;
    NoSplit(';', v);
  }

  lemma ReadsOneMore(s: string, first: Param, rest: string, others: seq<Param>)
    requires ReadParam(s) == Some((first, rest)) && ReadParams(rest) == Some(others)
    ensures ReadParams("; " + s) == Some([first] + others)
  {
    assert ("; " + s)[2..] == s;
  }

  lemma ReadsTwo(kind: string, name: string, text: string, name2: string, v: string)
    requires ';' !in kind && '=' !in name && '\"' !in text && '=' !in name2 && ';' !in v && '\"' !in v
    ensures ReadValue(kind + ("; " + QuotedParam(name, text, "; " + PlainParam(name2, v)))) ==
            Some(Value(kind, [Param(name, text), Param(name2, v)]))
  {
    var second := "; " + PlainParam(name2, v);
    var first := QuotedParam(name, text, second);
    ReadsPlain(name2, v);
    ReadsOneMore(PlainParam(name2, v), Param(name2, v), "", []);
    ReadsQuoted(name, text, second);
    ReadsOneMore(first, Param(name, text), second, [Param(name2, v)] + []);
    assert "; " + first == [';'] + (" " + first);
    SplitsAtFirst(';', kind, " " + first);
    assert ";" + (" " + first) == "; " + first;
    assert [Param(name, text)] + ([Param(name2, v)] + []) == [Param(name, text), Param(name2, v)];
  }

  lemma EscapeHasNo(s: GoString, c: char)
    requires c != '%' && !IsAlnum(c) && c !in "-_.~$&+=:@"
    ensures c !in PathEscape(s)
  {
    if s != "" {
      EscapeHasNo(s[1..], c);
      HexRoundTrip(s[0] as int / 16);
      HexRoundTrip(s[0] as int % 16);
    }
  }

  lemma FixedParts()
    ensures LEAD == "attachment" + ("; " + ("filename" + "="))
    ensures MIDDLE == "; " + ("filename*" + ("=" + "UTF-8''"))
  {
  }

  lemma Regrouped(kind: string, sep: string, name: string, eq: string, q: string, text: string,
                  name2: string, charset: string, bytes: string)
    ensures (kind + (sep + (name + eq))) + (q + (text + (q + ((sep + (name2 + (eq + charset))) + bytes)))) ==
            kind + (sep + (name + (eq + (q + (text + (q + (sep + (name2 + (eq + (charset + bytes))))))))))
  {
    assert (sep + (name2 + (eq + charset))) + bytes == sep + (name2 + (eq + (charset + bytes)));
  }

  /** Whatever the file is called, a reader of the header finds an attachment with two
      parameters: `filename`, the sanitised name, and `filename*`, the original bytes
      announced as UTF-8 without a language. */
  lemma DispositionRecovers(filename: GoString)
    ensures var extended := "UTF-8''" + PathEscape(filename);
            && ReadValue(ContentDisposition(filename)) ==
               Some(Value("attachment", [Param("filename", Sanitised(filename)), Param("filename*", extended)]))
            && ReadExtended(extended) == Some(("UTF-8", "", filename))
  {
    var extended, safe := "UTF-8''" + PathEscape(filename), Sanitised(filename);
    SanitisedIsSafe(filename);
    ExtendedIsPlain(filename);
    FixedParts();
    Regrouped("attachment", "; ", "filename", "=", "\"", safe, "filename*", "UTF-8''", PathEscape(filename));
    ReadsTwo("attachment", "filename", safe, "filename*", extended);
    ExtendedRecovers(filename);
  }

  lemma ExtendedIsPlain(filename: GoString)
    ensures ';' !in "UTF-8''" + PathEscape(filename) && '\"' !in "UTF-8''" + PathEscape(filename)
  {
    EscapeHasNo(filename, ';');
    EscapeHasNo(filename, '\"');
  }

  lemma ExtendedRecovers(filename: GoString)
    ensures ReadExtended("UTF-8''" + PathEscape(filename)) == Some(("UTF-8", "", filename))
  {
    var e := PathEscape(filename);
    EscapeRoundTrip(filename);
    assert "UTF-8''" + e == "UTF-8" + (['\''] + ("" + (['\''] + e)));
    SplitsAtFirst('\'', "UTF-8", "" + (['\''] + e));
    SplitsAtFirst('\'', "", e);
  }

  /** The quoted name character by character: each character of the name that ends no line is
      kept in its place, a double quote as a single one. */
  lemma {:induction false} SanitisedAt(s: string, j: nat)
    requires j < |s| && s[j] != '\r' && s[j] != '\n'
    ensures var i := j - Count('\r', s[..j]) - Count('\n', s[..j]);
            0 <= i < |Sanitised(s)| && Sanitised(s)[i] == if s[j] == '\"' then '\'' else s[j]
  {
    SanitisedSplits(s[..j], s[j..]);
    assert s == s[..j] + s[j..];
    SanitisedIsTheNameIff(s[..j]);
    assert s[j..][0] == s[j];
  }

  /** The extended value byte by byte: letters, digits and ten marks stay, every other byte is a
      percent sign and its two hexadecimal digits in capitals. */
  lemma {:induction false} EscapedByByte(s: GoString, j: nat)
    requires j < |s|
    ensures var a: GoString, b: GoString := s[..j], s[j + 1..];
            var kept := IsAlnum(s[j]) || s[j] in {'-', '_', '.', '~', '$', '&', '+', '=', ':', '@'};
            var byte := if kept then [s[j]] else ['%', Capital(s[j] as int / 16), Capital(s[j] as int % 16)];
            PathEscape(s) == PathEscape(a) + byte + PathEscape(b)
  {
    if j > 0 {
      var tail: GoString := s[1..];
      EscapedByByte(tail, j - 1);
      assert tail[..j - 1] == s[1..j] && tail[j..] == s[j + 1..];
      assert s[..j][1..] == s[1..j];
    }
  }

  /** A digit from 0 to F. */
  function Capital(n: nat): (c: char)
    requires n < 16
    ensures n < 10 ==> '0' <= c <= '9' && c as int - '0' as int == n
    ensures n >= 10 ==> 'A' <= c <= 'F' && c as int - 'A' as int == n - 10
  {
    HexDigit(n)
  }

  lemma ComposedCount(c: char, lead: string, quoted: string, middle: string, extended: string)
    requires c !in lead && c !in quoted && c !in middle && c !in extended
    ensures Count(c, Compose(lead, quoted, middle, extended)) == if c == '\"' then 2 else 0
  {
    CountSplits(c, middle, extended);
    CountSplits(c, "\"", middle + extended);
    CountSplits(c, quoted, "\"" + (middle + extended));
    CountSplits(c, "\"", quoted + ("\"" + (middle + extended)));
    CountSplits(c, lead, "\"" + (quoted + ("\"" + (middle + extended))));
    CountZeroIff(c, lead);
    CountZeroIff(c, quoted);
    CountZeroIff(c, middle);
    CountZeroIff(c, extended);
  }

  lemma LiteralsAreClean(c: char)
    requires c == '\"' || c == '\r' || c == '\n'
    ensures c !in LEAD && c !in MIDDLE
  {
  }

  /** No name can add a quote to the header value or end its line. */
  lemma DispositionIsOneHeaderValue(filename: GoString, c: char)
    requires c == '\"' || c == '\r' || c == '\n'
    ensures Count(c, ContentDisposition(filename)) == if c == '\"' then 2 else 0
  {
    SanitisedIsSafe(filename);
    EscapeIsSafe(filename);
    LiteralsAreClean(c);
    ComposedCount(c, LEAD, Sanitised(filename), MIDDLE, PathEscape(filename));
  }

  // ---------------------------------------------------------------- where the RFCs are not met

  /** attr-char of RFC 8187, section 3.2.1. */
  predicate AttrChar(c: char) {
    IsAlnum(c) || c in "!#$&+-.^_`|~"
  }

  /** value-chars of RFC 8187, section 3.2.1: percent triples and attr-chars. */
  predicate ValueChars(s: string) {
    if s == "" then true
    else if s[0] == '%' then |s| >= 3 && HexValue(s[1]).Some? && HexValue(s[2]).Some? && ValueChars(s[3..])
    else AttrChar(s[0]) && ValueChars(s[1..])
  }

  lemma ValueCharsOfByte(c: char, rest: string)
    requires c as int < 256
    ensures ValueChars(EscapeByte(c) + rest) <==> c != '=' && c != ':' && c != '@' && ValueChars(rest)
  {
    var e := EscapeByte(c) + rest;
    if Unescaped(c) {
      assert e[1..] == rest;
    } else {
      HexRoundTrip(c as int / 16);
      HexRoundTrip(c as int % 16);
      assert e[3..] == rest;
    }
  }

  /** The extended value has the form RFC 8187 asks for exactly when the name has no
      `=`, `:` or `@`, which `url.PathEscape` leaves as they are. */
  lemma {:induction false} ExtendedValueConformsIff(s: GoString)
    ensures ValueChars(PathEscape(s)) <==> '=' !in s && ':' !in s && '@' !in s
  {
    if s != "" {
      ExtendedValueConformsIff(s[1..]);
      ValueCharsOfByte(s[0], PathEscape(s[1..]));
      assert s == [s[0]] + s[1..];
    }
  }

  /** qdtext of RFC 7230, section 3.2.6: HTAB, SP and all visible bytes but the double quote
      and the backslash. */
  predicate QdText(c: char) {
    c == '\t' || c == ' ' || c == '!' || '#' <= c <= '[' || ']' <= c <= '~' || 0x80 <= c as int < 0x100
  }

  /** What may follow the backslash of a quoted-pair there. */
  predicate PairedChar(c: char) {
    c == '\t' || ' ' <= c <= '~' || 0x80 <= c as int < 0x100
  }

  /** Reads a quoted-string (RFC 7230, section 3.2.6) whose opening quote has been read. */
  function ReadQuotedString(s: string): Option<(string, string)> {
    if s == "" then None
    else if s[0] == '\"' then Some(("", s[1..]))
    else if s[0] == '\\' then
      if |s| < 2 || !PairedChar(s[1]) then None
      else match ReadQuotedString(s[2..])
        case None => None
        case Some((text, rest)) => Some(([s[1]] + text, rest))
    else if !QdText(s[0]) then None
    else match ReadQuotedString(s[1..])
      case None => None
      case Some((text, rest)) => Some(([s[0]] + text, rest))
  }

  lemma {:induction false} QuotedStringIsNoLonger(s: string)
    ensures ReadQuotedString(s).Some? ==>
              |ReadQuotedString(s).value.0| + |ReadQuotedString(s).value.1| < |s|
  {
    if s != "" && s[0] != '\"' {
      if s[0] != '\\' {
        QuotedStringIsNoLonger(s[1..]);
      } else if |s| >= 2 {
        QuotedStringIsNoLonger(s[2..]);
      }
    }
  }

  lemma {:induction false} QuotedStringReadsBackIff(text: string, rest: string)
    requires '\"' !in text
    ensures ReadQuotedString(text + ("\"" + rest)) == Some((text, rest)) <==> forall c :: c in text ==> QdText(c)
  {
    var s := text + ("\"" + rest);
    if text == "" {
      assert s[1..] == rest;
    } else if text[0] == '\\' {
      assert !QdText(text[0]);
      QuotedStringIsNoLonger(s[2..]);
      assert |s[2..]| == |text| + |rest| - 1;
    } else if !QdText(text[0]) {
      assert s[0] == text[0];
    } else {
      assert s[1..] == text[1..] + ("\"" + rest);
      QuotedStringReadsBackIff(text[1..], rest);
      assert text == [text[0]] + text[1..];
      var r := ReadQuotedString(s[1..]);
      if r.Some? && ReadQuotedString(s) == Some((text, rest)) {
        assert ([s[0]] + r.value.0)[1..] == r.value.0 == text[1..];
      }
    }
  }

  /** What a name may contain for its quoted part to conform: no backslash, no DEL, and no
      control byte but HTAB, and CR and LF, which the code drops. */
  predicate QuotesWell(c: char) {
    c != '\\' && c as int != 0x7F && (c as int >= 0x20 || c == '\t' || c == '\r' || c == '\n')
  }

  lemma {:induction false} SanitisedIsQdTextIff(s: GoString)
    ensures (forall c :: c in Sanitised(s) ==> QdText(c)) <==> forall c :: c in s ==> QuotesWell(c)
  {
    if s != "" {
      SanitisedIsQdTextIff(s[1..]);
      assert s == [s[0]] + s[1..];
      assert s[0] in s;
      var kept := if s[0] == '\"' then '\'' else s[0];
      if s[0] != '\r' && s[0] != '\n' {
        assert kept in Sanitised(s);
        assert QdText(kept) <==> QuotesWell(s[0]);
      }
    }
  }

  /** The quoted part is a quoted-string of RFC 7230 that reads back as the sanitised name
      exactly when the name has no backslash, which the code does not escape, no DEL and no
      control byte but HTAB, CR and LF. */
  lemma FallbackConformsIff(filename: GoString)
    ensures var tail := MIDDLE + PathEscape(filename);
            ReadQuotedString(Sanitised(filename) + ("\"" + tail)) == Some((Sanitised(filename), tail)) <==>
            forall c :: c in filename ==> QuotesWell(c)
  {
    SanitisedIsSafe(filename);
    SanitisedIsQdTextIff(filename);
    QuotedStringReadsBackIff(Sanitised(filename), MIDDLE + PathEscape(filename));
  }
}
