/** The daily summary mail: the plain-text and HTML bodies built from the mail
    items, the weather line and the headlines, and the sending step with its
    configuration check. */
module SummaryMailer {
  import opened Wrappers
  import opened Environment
  import opened Text

  // ---------------------------------------------------------------------------
  // Bodies
  // ---------------------------------------------------------------------------

  /** "".join(f"{open}{x}{close}" for x in xs) */
  function Enclose(open: string, close: string, xs: seq<string>): string {
    if xs == [] then "" else open + xs[0] + close + Enclose(open, close, xs[1..])
  }

  /** The bullet block of the text body: one "- x\n" line per element. */
  function Bullets(xs: seq<string>): string {
    Enclose("- ", "\n", xs)
  }

  /** The list items of the HTML body: one "<li>x</li>" per element. */
  function ListItems(xs: seq<string>): string {
    Enclose("<li>", "</li>", xs)
  }

  const TEXT_HEAD := "Daily Summary\n\nWeather:\n"
  const TEXT_HEADLINES := "\n\nHeadlines:\n"
  const TEXT_ITEMS := "\nItems:\n"

  const HTML_HEAD := "<html><body><h1>Daily Summary</h1><h2>Weather</h2><p>"
  const HTML_HEADLINES := "</p><h2>Headlines</h2><ul>"
  const HTML_ITEMS := "</ul><h2>Items</h2><ul>"
  const HTML_TAIL := "</ul></body></html>"

  /** The (text, html) pair build_body returns. */
  datatype Body = Body(text: string, html: string)

  /** build_body(email_items, weather, headlines) */
  function BuildBody(items: seq<string>, weather: string, headlines: seq<string>): Body {
    Body(TEXT_HEAD + (weather + (TEXT_HEADLINES + (Bullets(headlines) + (TEXT_ITEMS + Bullets(items))))),
         HTML_HEAD + (weather + (HTML_HEADLINES + (ListItems(headlines) + (HTML_ITEMS + (ListItems(items) + HTML_TAIL))))))
  }

  /** Each element contributes exactly open + x + close, in input order. */
  lemma {:induction false} EncloseAppend(open: string, close: string, xs: seq<string>, ys: seq<string>)
    ensures Enclose(open, close, xs + ys) == Enclose(open, close, xs) + Enclose(open, close, ys)
  {
    if xs == [] {
      assert xs + ys == ys;
    } else {
      assert (xs + ys)[1..] == xs[1..] + ys;
      EncloseAppend(open, close, xs[1..], ys);
      AppendAssoc(open + xs[0] + close, Enclose(open, close, xs[1..]), Enclose(open, close, ys));
    }
  }

  lemma EncloseOne(open: string, close: string, x: string)
    ensures Enclose(open, close, [x]) == open + x + close
  {
    assert Enclose(open, close, []) == "";
  }

  // ---------------------------------------------------------------------------
  // Reading a body back
  // ---------------------------------------------------------------------------

  /** The three inputs a body is built from. */
  datatype Digest = Digest(items: seq<string>, weather: string, headlines: seq<string>)

  /** The position of the first `c` in `s`, or |s| when there is none. */
  function FindChar(c: char, s: string): (k: nat)
    ensures k <= |s| && (k < |s| ==> s[k] == c)
    ensures forall i :: 0 <= i < k ==> s[i] != c
  {
    if s == [] || s[0] == c then 0 else 1 + FindChar(c, s[1..])
  }

  /** What follows `prefix` in `s`, if `s` starts with it. */
  function After(prefix: string, s: string): (r: Option<string>)
    ensures r.Some? ==> s == prefix + r.value
  {
    if prefix <= s then Some(s[|prefix|..]) else None
  }

  /** Reads elements written as open + x + close for as long as `s` starts with
      `open`; `x` ends at the first character of `close`. Returns the elements
      and what follows them. */
  function ParseMany(open: string, close: string, s: string): (r: (seq<string>, string))
    requires open != [] && close != []
    decreases |s|
  {
    match After(open, s)
    case None => ([], s)
    case Some(body) =>
      var k := FindChar(close[0], body);
      match After(close, body[k..])
      case None => ([], s)
      case Some(next) =>
        var more := ParseMany(open, close, next);
        ([body[..k]] + more.0, more.1)
  }

  /** Reads a text body back into its inputs. */
  function ParseText(s: string): Option<Digest> {
    match After(TEXT_HEAD, s)
    case None => None
    case Some(a) =>
      var k := FindChar('\n', a);
      match After(TEXT_HEADLINES, a[k..])
      case None => None
      case Some(b) =>
        var (headlines, c) := ParseMany("- ", "\n", b);
        match After(TEXT_ITEMS, c)
        case None => None
        case Some(d) =>
          var (items, e) := ParseMany("- ", "\n", d);
          if e == "" then Some(Digest(items, a[..k], headlines)) else None
  }

  /** Reads an HTML body back into its inputs. */
  function ParseHtml(s: string): Option<Digest> {
    match After(HTML_HEAD, s)
    case None => None
    case Some(a) =>
      var k := FindChar('<', a);
      match After(HTML_HEADLINES, a[k..])
      case None => None
      case Some(b) =>
        var (headlines, c) := ParseMany("<li>", "</li>", b);
        match After(HTML_ITEMS, c)
        case None => None
        case Some(d) =>
          var (items, e) := ParseMany("<li>", "</li>", d);
          if e == HTML_TAIL then Some(Digest(items, a[..k], headlines)) else None
  }

  predicate Avoids(c: char, xs: seq<string>) {
    forall i :: 0 <= i < |xs| ==> c !in xs[i]
  }

  lemma AfterPrefix(prefix: string, t: string)
    ensures After(prefix, prefix + t) == Some(t)
  {
    assert (prefix + t)[..|prefix|] == prefix;
    assert (prefix + t)[|prefix|..] == t;
  }

  /** The first `c` in x + r, when x has none, is where r starts. */
  lemma {:induction false} FindCharAfter(c: char, x: string, r: string)
    requires c !in x && r != [] && r[0] == c
    ensures FindChar(c, x + r) == |x|
    decreases |x|
  {
    if x == [] {
      assert x + r == r;
    } else {
      assert (x + r)[0] == x[0];
      assert (x + r)[1..] == x[1..] + r;
      FindCharAfter(c, x[1..], r);
    }
  }

  /** ParseMany undoes Enclose, provided no element holds the first character of
      `close` and what follows does not start with `open`. */
  lemma {:induction false} ParseEnclose(open: string, close: string, xs: seq<string>, t: string)
    requires open != [] && close != []
    requires Avoids(close[0], xs) && !(open <= t)
    ensures ParseMany(open, close, Enclose(open, close, xs) + t) == (xs, t)
    decreases |xs|
  {
    if xs == [] {
      assert Enclose(open, close, xs) + t == t;
    } else {
      var rest := Enclose(open, close, xs[1..]) + t;
      EncloseCons(open, close, xs, t);
      ParseOne(open, close, xs[0], rest);
      AvoidsTail(close[0], xs);
      ParseEnclose(open, close, xs[1..], t);
      assert [xs[0]] + xs[1..] == xs;
    }
  }

  lemma EncloseCons(open: string, close: string, xs: seq<string>, t: string)
    requires xs != []
    ensures Enclose(open, close, xs) + t
         == open + (xs[0] + (close + (Enclose(open, close, xs[1..]) + t)))
  {
    AppendAssoc(open + xs[0] + close, Enclose(open, close, xs[1..]), t);
  }

  lemma AvoidsTail(c: char, xs: seq<string>)
    requires xs != [] && Avoids(c, xs)
    ensures Avoids(c, xs[1..])
  {
    forall i | 0 <= i < |xs[1..]| ensures c !in xs[1..][i] {
      assert xs[1..][i] == xs[i + 1];
    }
  }

  /** One element read off the front. */
  lemma ParseOne(open: string, close: string, x: string, rest: string)
    requires open != [] && close != [] && close[0] !in x
    ensures var more := ParseMany(open, close, rest);
      ParseMany(open, close, open + (x + (close + rest))) == ([x] + more.0, more.1)
  {
    AfterPrefix(open, x + (close + rest));
    ReadField(close[0], x, close, rest);
  }

  /** The text body can be read back into exactly the inputs it was built from
      when no input holds a line break: the layout is lossless and keeps the
      order of the sections and of the elements. */
  lemma TextRoundTrip(items: seq<string>, weather: string, headlines: seq<string>)
    requires '\n' !in weather && Avoids('\n', items) && Avoids('\n', headlines)
    ensures ParseText(BuildBody(items, weather, headlines).text) == Some(Digest(items, weather, headlines))
  {
    var tail := TEXT_ITEMS + Bullets(items);
    var b := Bullets(headlines) + tail;
    AfterPrefix(TEXT_HEAD, weather + (TEXT_HEADLINES + b));
    ReadField('\n', weather, TEXT_HEADLINES, b);
    assert tail[0] == '\n';
    ParseEnclose("- ", "\n", headlines, tail);
    AfterPrefix(TEXT_ITEMS, Bullets(items));
    assert Bullets(items) + "" == Bullets(items);
    ParseEnclose("- ", "\n", items, "");
  }

  /** The same for the HTML body, when no input holds a '<'. */
  lemma HtmlRoundTrip(items: seq<string>, weather: string, headlines: seq<string>)
    requires '<' !in weather && Avoids('<', items) && Avoids('<', headlines)
    ensures ParseHtml(BuildBody(items, weather, headlines).html) == Some(Digest(items, weather, headlines))
  {
    var tail := HTML_ITEMS + (ListItems(items) + HTML_TAIL);
    var b := ListItems(headlines) + tail;
    AfterPrefix(HTML_HEAD, weather + (HTML_HEADLINES + b));
    ReadField('<', weather, HTML_HEADLINES, b);
    assert tail[1] == '/';
    ParseEnclose("<li>", "</li>", headlines, tail);
    AfterPrefix(HTML_ITEMS, ListItems(items) + HTML_TAIL);
    ParseEnclose("<li>", "</li>", items, HTML_TAIL);
  }

  /** A field that holds no `stop` character, followed by a separator that
      starts with one, is read back whole. */
  lemma ReadField(stop: char, x: string, sep: string, b: string)
    requires stop !in x && sep != [] && sep[0] == stop
    ensures var a := x + (sep + b);
      FindChar(stop, a) == |x| && a[..|x|] == x && After(sep, a[|x|..]) == Some(b)
  {
    var a := x + (sep + b);
    FindCharAfter(stop, x, sep + b);
    assert a[|x|..] == sep + b;
    AfterPrefix(sep, b);
  }

  /** Nothing is escaped: an item holding a line break and a bullet gives the
      same text body as two items. */
  lemma TextNotEscaped(weather: string, headlines: seq<string>)
    ensures BuildBody(["a\n- b"], weather, headlines).text == BuildBody(["a", "b"], weather, headlines).text
  {
    assert Bullets(["a\n- b"]) == Bullets(["a", "b"]) by {
      EncloseOne("- ", "\n", "a\n- b");
      EncloseAppend("- ", "\n", ["a"], ["b"]);
      EncloseOne("- ", "\n", "a");
      EncloseOne("- ", "\n", "b");
      assert ["a"] + ["b"] == ["a", "b"];
    }
  }

  /** ... and an item holding "</li><li>" gives the same HTML body as two items. */
  lemma HtmlNotEscaped(weather: string, headlines: seq<string>)
    ensures BuildBody(["a</li><li>b"], weather, headlines).html == BuildBody(["a", "b"], weather, headlines).html
  {
    assert ListItems(["a</li><li>b"]) == ListItems(["a", "b"]) by {
      EncloseOne("<li>", "</li>", "a</li><li>b");
      EncloseAppend("<li>", "</li>", ["a"], ["b"]);
      EncloseOne("<li>", "</li>", "a");
      EncloseOne("<li>", "</li>", "b");
      assert ["a"] + ["b"] == ["a", "b"];
    }
  }

  // ---------------------------------------------------------------------------
  // Configuration
  // ---------------------------------------------------------------------------

  predicate IsDigit(c: char) {
    '0' <= c <= '9'
  }

  predicate AllDigits(s: string) {
    forall i :: 0 <= i < |s| ==> IsDigit(s[i])
  }

  /** The value of a non-empty string of decimal digits; None for an empty
      string or one holding anything else. */
  function ParseDigits(s: string): Option<nat>
    decreases |s|
  {
    if s == [] || !IsDigit(s[|s| - 1]) then None
    else
      var d := s[|s| - 1] as int - '0' as int;
      if |s| == 1 then Some(d)
      else match ParseDigits(s[..|s| - 1])
        case None => None
        case Some(v) => Some(10 * v + d)
  }

  /** The whitespace int() ignores around a number: the ASCII space and '\t'
      through '\r', and every non-ASCII character for which str.isspace() holds.
      The separators '\x1c' through '\x1f' are whitespace to str.isspace() and
      str.strip() but not to int(). */
  predicate IntSpace(c: char) {
    c == ' ' || ('\t' <= c <= '\r') || (c >= '\U{80}' && IsSpace(c))
  }

  /** Drops the leading characters int() ignores. */
  function IntTrimStart(s: string): (r: string)
    ensures |r| <= |s| && r == s[|s| - |r|..]
    ensures r == [] || !IntSpace(r[0])
  {
    if s != [] && IntSpace(s[0]) then IntTrimStart(s[1..]) else s
  }

  /** Drops the trailing characters int() ignores. */
  function IntTrimEnd(s: string): (r: string)
    ensures |r| <= |s| && r == s[..|r|]
    ensures r == [] || !IntSpace(r[|r| - 1])
  {
    if s != [] && IntSpace(s[|s| - 1]) then IntTrimEnd(s[..|s| - 1]) else s
  }

  /** int(s) for a decimal string: the whitespace int() ignores is dropped from
      both ends, then an optional sign and at least one digit must remain. None
      where int() raises ValueError. */
  function ParseInt(s: string): Option<int> {
    ParseSigned(IntTrimEnd(IntTrimStart(s)))
  }

  /** An optional sign, then at least one digit and at most MAX_STR_DIGITS. */
  function ParseSigned(t: string): Option<int> {
    if t != [] && t[0] == '-' then Widen(LimitedDigits(t[1..]), -1)
    else if t != [] && t[0] == '+' then Widen(LimitedDigits(t[1..]), 1)
    else Widen(LimitedDigits(t), 1)
  }

  /** The default of sys.get_int_max_str_digits(): int() refuses a decimal
      string with more digits than this. */
  const MAX_STR_DIGITS := 4300

  /** ParseDigits for a digit run that int() is allowed to convert. */
  function LimitedDigits(d: string): Option<nat> {
    if |d| > MAX_STR_DIGITS then None else ParseDigits(d)
  }

  function Widen(v: Option<nat>, sign: int): Option<int> {
    match v
    case None => None
    case Some(n) => Some(sign * n)
  }

  /** str(n) for a natural number. */
  function NatToString(n: nat): (s: string)
    ensures s != [] && AllDigits(s)
  {
    if n < 10 then [('0' as int + n) as char]
    else NatToString(n / 10) + [('0' as int + n % 10) as char]
  }

  /** str(n) */
  function IntToString(n: int): string {
    if n < 0 then "-" + NatToString(-n) else NatToString(n)
  }

  lemma {:induction false} DigitsOfNat(n: nat)
    ensures ParseDigits(NatToString(n)) == Some(n)
  {
    var s := NatToString(n);
    if n >= 10 {
      DigitsOfNat(n / 10);
      assert s[..|s| - 1] == NatToString(n / 10);
    }
  }

  /** int(str(n)) == n, for every n whose decimal form has at most
      MAX_STR_DIGITS digits (beyond that str(n) raises as well). */
  lemma ParseIntToString(n: int)
    requires |NatToString(if n < 0 then -n else n)| <= MAX_STR_DIGITS
    ensures ParseInt(IntToString(n)) == Some(n)
  {
    var m: nat := if n < 0 then -n else n;
    DigitsOfNat(m);
    ParseIntOfDigits(NatToString(m), m);
  }

  /** A digit string reads as its value, with or without a leading '-'. */
  lemma ParseIntOfDigits(d: string, v: nat)
    requires d != [] && |d| <= MAX_STR_DIGITS && AllDigits(d) && ParseDigits(d) == Some(v)
    ensures ParseInt(d) == Some(v) && ParseInt("-" + d) == Some(-(v as int))
  {
    DigitNotSpace(d[0]);
    DigitNotSpace(d[|d| - 1]);
    Unsigned(d, v);
    Negated(d, v);
  }

  lemma Unsigned(d: string, v: nat)
    requires d != [] && IsDigit(d[0]) && !IntSpace(d[0]) && !IntSpace(d[|d| - 1])
    requires |d| <= MAX_STR_DIGITS && ParseDigits(d) == Some(v)
    ensures ParseInt(d) == Some(v)
  {
    assert IntTrimEnd(IntTrimStart(d)) == d by {
      IntTrimUnchanged(d);
    }
    assert ParseSigned(d) == Widen(LimitedDigits(d), 1);
  }

  lemma Negated(d: string, v: nat)
    requires d != [] && |d| <= MAX_STR_DIGITS && !IntSpace(d[|d| - 1]) && ParseDigits(d) == Some(v)
    ensures ParseInt("-" + d) == Some(-(v as int))
  {
    var s := "-" + d;
    assert s[|s| - 1] == d[|d| - 1] && s[0] == '-' && s[1..] == d;
    assert IntTrimEnd(IntTrimStart(s)) == s by {
      IntTrimUnchanged(s);
    }
    assert ParseSigned(s) == Widen(LimitedDigits(d), -1);
  }

  /** A run of more than MAX_STR_DIGITS digits is refused, with or without a
      leading '-', although every character of it is a digit. */
  lemma TooManyDigits(d: string)
    requires |d| > MAX_STR_DIGITS && AllDigits(d)
    ensures ParseInt(d) == None && ParseInt("-" + d) == None
  {
    DigitNotSpace(d[0]);
    DigitNotSpace(d[|d| - 1]);
    assert IntTrimEnd(IntTrimStart(d)) == d by {
      IntTrimUnchanged(d);
    }
    assert ParseSigned(d) == Widen(LimitedDigits(d), 1);
    var s := "-" + d;
    assert s[|s| - 1] == d[|d| - 1] && s[0] == '-' && s[1..] == d;
    assert IntTrimEnd(IntTrimStart(s)) == s by {
      IntTrimUnchanged(s);
    }
    assert ParseSigned(s) == Widen(LimitedDigits(d), -1);
  }

  lemma DigitNotSpace(c: char)
    requires IsDigit(c)
    ensures !IntSpace(c)
  {
  }

  /** Text whose ends int() does not ignore is kept whole. */
  lemma IntTrimUnchanged(s: string)
    requires s != [] && !IntSpace(s[0]) && !IntSpace(s[|s| - 1])
    ensures IntTrimEnd(IntTrimStart(s)) == s
  {
    assert IntTrimStart(s) == s;
  }

  /** Whitespace int() ignores, on either side of the number, does not change
      what it reads. */
  lemma IntPadding(lead: string, t: string, trail: string)
    requires forall i :: 0 <= i < |lead| ==> IntSpace(lead[i])
    requires forall i :: 0 <= i < |trail| ==> IntSpace(trail[i])
    requires t != [] && !IntSpace(t[0]) && !IntSpace(t[|t| - 1])
    ensures ParseInt(lead + t + trail) == ParseSigned(t)
  {
    assert lead + t + trail == lead + (t + trail);
    IntTrimStartPad(lead, t + trail);
    IntTrimEndPad(t, trail);
  }

  lemma {:induction false} IntTrimStartPad(p: string, t: string)
    requires forall i :: 0 <= i < |p| ==> IntSpace(p[i])
    requires t == [] || !IntSpace(t[0])
    ensures IntTrimStart(p + t) == t
  {
    if p == [] {
      assert p + t == t;
    } else {
      assert (p + t)[0] == p[0];
      assert (p + t)[1..] == p[1..] + t;
      IntTrimStartPad(p[1..], t);
    }
  }

  lemma {:induction false} IntTrimEndPad(t: string, p: string)
    requires forall i :: 0 <= i < |p| ==> IntSpace(p[i])
    requires t == [] || !IntSpace(t[|t| - 1])
    ensures IntTrimEnd(t + p) == t
    decreases |p|
  {
    if p == [] {
      assert t + p == t;
    } else {
      var u := t + p;
      assert u[|u| - 1] == p[|p| - 1];
      assert u[..|u| - 1] == t + p[..|p| - 1];
      IntTrimEndPad(t, p[..|p| - 1]);
    }
  }

  /** int() of an empty or all-whitespace string raises, including a string of
      the separators '\x1c' through '\x1f' that int() does not ignore. */
  lemma ParseIntOfBlank(s: string)
    requires AllSpace(s)
    ensures ParseInt(s) == None
  {
    var t := IntTrimStart(s);
    var r := IntTrimEnd(t);
    if r != [] {
      assert r[0] == s[|s| - |t|] && r[|r| - 1] == s[|s| - |t| + |r| - 1];
    }
  }

  /** A port padded with '\x1c' is rejected by int(), although str.strip()
      would drop that character. */
  lemma SeparatorNotIgnored()
    ensures ParseInt("\U{1c}587") == None
  {
    var s := "\U{1c}587";
    assert IntTrimEnd(IntTrimStart(s)) == s by {
      assert IntTrimStart(s) == s;
      assert IntTrimEnd(s) == s;
    }
    assert ParseDigits(s) == None by {
      assert ParseDigits(s[..1]) == None;
      assert s[..2][..1] == s[..1];
      assert s[..3][..2] == s[..2];
      assert s[..|s| - 1] == s[..3];
    }
    assert ParseSigned(s) == Widen(LimitedDigits(s), 1) by {
      assert s[0] == '\U{1c}';
    }
  }

  /** The settings `send_summary_email` reads. */
  datatype SmtpConfig = SmtpConfig(host: string, port: int, user: string, password: string,
                                   fromAddr: string, toAddr: string)

  /** Both are ValueError in the source: int() rejecting SMTP_PORT, or the
      check for missing settings. */
  datatype ConfigError = InvalidPort(text: string) | MissingSetting

  const DEFAULT_PORT := "587"

  /** The settings that must be present and non-empty. */
  const REQUIRED: seq<string> := ["SMTP_HOST", "SMTP_USER", "SMTP_PASSWORD", "EMAIL_FROM", "EMAIL_TO"]

  predicate RequiredPresent(env: Env) {
    forall i :: 0 <= i < |REQUIRED| ==> Truthy(Getenv(env, REQUIRED[i]))
  }

  function PortText(env: Env): string {
    Getenv(env, "SMTP_PORT").GetOr(DEFAULT_PORT)
  }

  /** The reads and the check at the start of send_summary_email. The port is
      converted first, so a bad port is reported even when settings are
      missing; the port itself is not a required setting. */
  function LoadSmtpConfig(env: Env): Result<SmtpConfig, ConfigError> {
    var host := Getenv(env, "SMTP_HOST");
    var portText := Getenv(env, "SMTP_PORT").GetOr(DEFAULT_PORT);
    var user := Getenv(env, "SMTP_USER");
    var password := Getenv(env, "SMTP_PASSWORD");
    var fromAddr := Getenv(env, "EMAIL_FROM");
    var toAddr := Getenv(env, "EMAIL_TO");
    match ParseInt(portText)
    case None => Failure(InvalidPort(portText))
    case Some(port) =>
      if !(Truthy(host) && Truthy(user) && Truthy(password) && Truthy(fromAddr) && Truthy(toAddr)) then
        Failure(MissingSetting)
      else
        Success(SmtpConfig(host.value, port, user.value, password.value, fromAddr.value, toAddr.value))
  }

  /** The configuration is accepted exactly when SMTP_PORT (or its default)
      converts and every required setting is non-empty; a bad port is the
      error reported whenever there is one. */
  lemma LoadSmtpConfigOutcome(env: Env)
    ensures var r := LoadSmtpConfig(env);
      r.Success? <==> ParseInt(PortText(env)).Some? && RequiredPresent(env)
    ensures var r := LoadSmtpConfig(env);
      r.Failure? ==> (r.error == InvalidPort(PortText(env)) <==> ParseInt(PortText(env)).None?)
    ensures var r := LoadSmtpConfig(env);
      r.Failure? ==> (r.error == MissingSetting <==> ParseInt(PortText(env)).Some?)
  {
    RequiredSettings(env);
  }

  lemma RequiredSettings(env: Env)
    ensures RequiredPresent(env) <==>
      Truthy(Getenv(env, "SMTP_HOST")) && Truthy(Getenv(env, "SMTP_USER"))
      && Truthy(Getenv(env, "SMTP_PASSWORD")) && Truthy(Getenv(env, "EMAIL_FROM"))
      && Truthy(Getenv(env, "EMAIL_TO"))
  {
    assert REQUIRED[0] == "SMTP_HOST" && REQUIRED[1] == "SMTP_USER" && REQUIRED[2] == "SMTP_PASSWORD";
    assert REQUIRED[3] == "EMAIL_FROM" && REQUIRED[4] == "EMAIL_TO" && |REQUIRED| == 5;
  }

  /** On success every setting is taken as read. */
  lemma LoadSmtpConfigValues(env: Env)
    requires LoadSmtpConfig(env).Success?
    ensures LoadSmtpConfig(env).value
      == SmtpConfig(env["SMTP_HOST"], ParseInt(PortText(env)).value, env["SMTP_USER"],
                    env["SMTP_PASSWORD"], env["EMAIL_FROM"], env["EMAIL_TO"])
  {
  }

  /** With SMTP_PORT unset the port is 587. */
  lemma DefaultPort(env: Env)
    requires "SMTP_PORT" !in env && RequiredPresent(env)
    ensures LoadSmtpConfig(env).Success? && LoadSmtpConfig(env).value.port == 587
  {
    assert PortText(env) == "587";
    assert NatToString(5) == "5";
    assert NatToString(58) == "58";
    assert IntToString(587) == "587";
    ParseIntToString(587);
    RequiredSettings(env);
  }

  /** SMTP_PORT set to an empty string is rejected, even though an unset one
      is not. */
  lemma EmptyPortRejected(env: Env)
    requires "SMTP_PORT" in env && env["SMTP_PORT"] == ""
    ensures LoadSmtpConfig(env) == Failure(InvalidPort(""))
  {
    ParseIntOfBlank("");
  }

  /** SMTP_PORT holding 587 after a '\x1c' is rejected: int() does not ignore
      that character. */
  lemma SeparatorPortRejected(env: Env)
    requires "SMTP_PORT" in env && env["SMTP_PORT"] == "\U{1c}587"
    ensures LoadSmtpConfig(env) == Failure(InvalidPort("\U{1c}587"))
  {
    SeparatorNotIgnored();
  }

  /** SMTP_PORT of 4301 digits is rejected: int() refuses more than
      MAX_STR_DIGITS digits. */
  lemma LongPortRejected(env: Env)
    requires "SMTP_PORT" in env && env["SMTP_PORT"] == seq(MAX_STR_DIGITS + 1, _ => '1')
    ensures LoadSmtpConfig(env) == Failure(InvalidPort(env["SMTP_PORT"]))
  {
    TooManyDigits(env["SMTP_PORT"]);
  }

  // ---------------------------------------------------------------------------
  // Sending
  // ---------------------------------------------------------------------------

  /** The multipart/alternative message: subject, sender, recipient, then the
      plain part and the HTML part. */
  datatype OutgoingMail = OutgoingMail(subject: string, fromAddr: string, toAddr: string,
                                       plain: string, html: string)

  /** What is asked of the SMTP server. `Quit` is the exit of the `with` block. */
  datatype SmtpEvent =
    | Connect(host: string, port: int)
    | StartTls
    | Login(user: string, password: string)
    | SendMail(fromAddr: string, recipients: seq<string>, mail: OutgoingMail)
    | Quit

  const SUBJECT := "Daily Summary"

  /** The events of a successful send. */
  function Delivery(config: SmtpConfig, body: Body): seq<SmtpEvent> {
    [Connect(config.host, config.port), StartTls, Login(config.user, config.password),
     SendMail(config.fromAddr, [config.toAddr],
              OutgoingMail(SUBJECT, config.fromAddr, config.toAddr, body.text, body.html)),
     Quit]
  }

  /** The SMTP connection, recorded as the trace of events it was asked for. */
  class SmtpChannel {
    ghost var trace: seq<SmtpEvent>

    constructor ()
      ensures trace == []
    {
      trace := [];
    }

    method Record(e: SmtpEvent)
      modifies this
      ensures trace == old(trace) + [e]
    {
      trace := trace + [e];
    }
  }

  /** The `with smtplib.SMTP(host, port)` block: one session that upgrades to
      TLS, logs in, sends the message to the single recipient and quits. */
  method Deliver(channel: SmtpChannel, config: SmtpConfig, body: Body)
    modifies channel
    ensures channel.trace == old(channel.trace) + Delivery(config, body)
  {
    var mail := OutgoingMail(SUBJECT, config.fromAddr, config.toAddr, body.text, body.html);
    ghost var start, events := channel.trace, Delivery(config, body);
    channel.Record(Connect(config.host, config.port));
    assert channel.trace == start + events[..1];
    channel.Record(StartTls);
    assert channel.trace == start + events[..2] by { AppendStep(start, events, 1); }
    channel.Record(Login(config.user, config.password));
    assert channel.trace == start + events[..3] by { AppendStep(start, events, 2); }
    channel.Record(SendMail(config.fromAddr, [config.toAddr], mail));
    assert channel.trace == start + events[..4] by { AppendStep(start, events, 3); }
    channel.Record(Quit);
    assert channel.trace == start + events by { AppendStep(start, events, 4); }
  }

  /** send_summary_email. On a configuration error nothing is sent and no
      connection is opened; otherwise one session connects, upgrades to TLS,
      logs in, sends the built bodies to the single recipient and quits. */
  method SendSummaryEmail(env: Env, channel: SmtpChannel, items: seq<string>, weather: string,
                          headlines: seq<string>)
    returns (error: Option<ConfigError>)
    modifies channel
    ensures LoadSmtpConfig(env).Failure? ==>
      error == Some(LoadSmtpConfig(env).error) && channel.trace == old(channel.trace)
    ensures LoadSmtpConfig(env).Success? ==>
      error == None
      && channel.trace == old(channel.trace)
           + Delivery(LoadSmtpConfig(env).value, BuildBody(items, weather, headlines))
  {
    var loaded := LoadSmtpConfig(env);
    if loaded.Failure? {
      return Some(loaded.error);
    }
    Deliver(channel, loaded.value, BuildBody(items, weather, headlines));
    error := None;
  }
}
