/**
  The text that is hashed for one audit row: `JSON.stringify` of an object whose keys
  always come in the same order, `details` being present only when it is not null.
  The main result is that the text determines every field, even with other text behind it.
 */
module CanonicalJson {
  import opened Common

  /** The hashed fields of one audit row; `createdAt` is the ISO text of the timestamp. */
  datatype Content = Content(
    id: string,
    userId: Option<string>,
    action: string,
    entity: string,
    entityId: Option<string>,
    ipAddress: Option<string>,
    userAgent: Option<string>,
    createdAt: string,
    details: Option<string>)

  datatype Member = Member(name: string, value: Option<string>)

  const HEX := "0123456789abcdef"

  function EscapeChar(c: char): string {
    if c == '\"' then "\\\""
    else if c == '\\' then "\\\\"
    else if c == '\n' then "\\n"
    else if c == '\r' then "\\r"
    else if c == '\t' then "\\t"
    else if c == '\U{08}' then "\\b"
    else if c == '\U{0C}' then "\\f"
    else if c < ' ' then "\\u00" + [HEX[c as int / 16], HEX[c as int % 16]]
    else [c]
  }

  function EscapeAll(s: string): string {
    if s == "" then "" else EscapeChar(s[0]) + EscapeAll(s[1..])
  }

  function Quote(s: string): string {
    "\"" + (EscapeAll(s) + "\"")
  }

  function Nullable(v: Option<string>): string {
    match v
    case None => "null"
    case Some(s) => Quote(s)
  }

  /** The members behind the opening brace, each led by `sep`, up to the closing brace. */
  function Members(sep: string, ms: seq<Member>): string
    decreases |ms|
  {
    if ms == [] then "}"
    else sep + (Quote(ms[0].name) + (":" + (Nullable(ms[0].value) + Members(",", ms[1..]))))
  }

  function Fields(c: Content): seq<Member> {
    [Member("id", Some(c.id)), Member("userId", c.userId), Member("action", Some(c.action)),
     Member("entity", Some(c.entity)), Member("entityId", c.entityId), Member("ipAddress", c.ipAddress),
     Member("userAgent", c.userAgent), Member("createdAt", Some(c.createdAt))]
    + if c.details.Some? then [Member("details", c.details)] else []
  }

  function Canonicalize(c: Content): string {
    "{" + Members("", Fields(c))
  }

  // ---- The text is uniquely readable ----

  lemma DropCommonPrefix(p: string, x: string, y: string)
    requires p + x == p + y
    ensures x == y
  {
    assert x == (p + x)[|p|..];
    assert y == (p + y)[|p|..];
  }

  lemma Regroup(p: string, q: string, x: string)
    ensures (p + q) + x == p + (q + x)
  {}

  lemma HexUnique(m: nat, n: nat)
    requires m < 16 && n < 16 && HEX[m] == HEX[n]
    ensures m == n
  {}

  /** Control characters without a short form. */
  predicate IsHexEscaped(c: char) {
    c < ' ' && c !in "\n\r\t\U{08}\U{0C}"
  }

  lemma HexEscape(c: char)
    requires IsHexEscaped(c)
    ensures EscapeChar(c) == "\\u00" + [HEX[c as int / 16], HEX[c as int % 16]]
  {}

  lemma HexEscapeUnique(a: char, b: char, x: string, y: string)
    requires IsHexEscaped(a) && IsHexEscaped(b) && EscapeChar(a) + x == EscapeChar(b) + y
    ensures a == b
  {
    HexEscape(a);
    HexEscape(b);
    var s := EscapeChar(a) + x;
    assert s[4] == EscapeChar(a)[4] == EscapeChar(b)[4];
    assert s[5] == EscapeChar(a)[5] == EscapeChar(b)[5];
    HexUnique(a as int / 16, b as int / 16);
    HexUnique(a as int % 16, b as int % 16);
  }

  lemma EscapeCharUnique(a: char, b: char, x: string, y: string)
    requires EscapeChar(a) + x == EscapeChar(b) + y
    ensures a == b && x == y
  {
    var s := EscapeChar(a) + x;
    assert s[0] == EscapeChar(a)[0] == EscapeChar(b)[0];
    if IsHexEscaped(a) && IsHexEscaped(b) {
      HexEscapeUnique(a, b, x, y);
    } else if |EscapeChar(a)| > 1 {
      assert s[1] == EscapeChar(a)[1] == EscapeChar(b)[1];
    }
    DropCommonPrefix(EscapeChar(a), x, y);
  }

  lemma EscapeCharNotQuote(c: char)
    ensures EscapeChar(c) != "" && EscapeChar(c)[0] != '\"'
  {}

  lemma EscapeAllHead(a: string, r: string)
    requires a != ""
    ensures EscapeAll(a) + r == EscapeChar(a[0]) + (EscapeAll(a[1..]) + r)
    ensures EscapeAll(a) != "" && EscapeAll(a)[0] != '\"'
  {
    Regroup(EscapeChar(a[0]), EscapeAll(a[1..]), r);
    EscapeCharNotQuote(a[0]);
  }

  /** Quoted text ends at its first unescaped quote, so what follows it can be told apart. */
  lemma {:induction false} EscapeAllUnique(a: string, b: string, r: string, t: string)
    requires r != "" && t != "" && r[0] == t[0] == '\"'
    requires EscapeAll(a) + r == EscapeAll(b) + t
    ensures a == b && r == t
  {
    if a == "" && b == "" {
      DropCommonPrefix("", r, t);
    } else if a == "" {
      assert EscapeAll(a) + r == r;
      EscapeAllHead(b, t);
    } else if b == "" {
      assert EscapeAll(b) + t == t;
      EscapeAllHead(a, r);
    } else {
      EscapeAllHead(a, r);
      EscapeAllHead(b, t);
      EscapeCharUnique(a[0], b[0], EscapeAll(a[1..]) + r, EscapeAll(b[1..]) + t);
      EscapeAllUnique(a[1..], b[1..], r, t);
      assert a == [a[0]] + a[1..] && b == [b[0]] + b[1..];
    }
  }

  lemma QuoteUnique(a: string, b: string, x: string, y: string)
    requires Quote(a) + x == Quote(b) + y
    ensures a == b && x == y
  {
    Regroup("\"", EscapeAll(a) + "\"", x);
    Regroup("\"", EscapeAll(b) + "\"", y);
    Regroup(EscapeAll(a), "\"", x);
    Regroup(EscapeAll(b), "\"", y);
    DropCommonPrefix("\"", EscapeAll(a) + ("\"" + x), EscapeAll(b) + ("\"" + y));
    EscapeAllUnique(a, b, "\"" + x, "\"" + y);
    DropCommonPrefix("\"", x, y);
  }

  lemma NullableUnique(a: Option<string>, b: Option<string>, x: string, y: string)
    requires Nullable(a) + x == Nullable(b) + y
    ensures a == b && x == y
  {
    var s := Nullable(a) + x;
    assert s[0] == Nullable(a)[0] == Nullable(b)[0];
    match (a, b)
    case (None, None) => DropCommonPrefix("null", x, y);
    case (Some(u), Some(v)) => QuoteUnique(u, v, x, y);
    case (None, Some(v)) =>
    case (Some(u), None) =>
  }

  ghost predicate SameNames(ms: seq<Member>, ns: seq<Member>) {
    forall i :: 0 <= i < |ms| && i < |ns| ==> ms[i].name == ns[i].name
  }

  lemma MembersHead(sep: string, ms: seq<Member>, x: string)
    requires ms != []
    ensures Members(sep, ms) + x
         == (sep + (Quote(ms[0].name) + ":")) + (Nullable(ms[0].value) + (Members(",", ms[1..]) + x))
  {
    var q, v, t := Quote(ms[0].name), Nullable(ms[0].value), Members(",", ms[1..]);
    Regroup(sep, q + (":" + (v + t)), x);
    Regroup(q, ":" + (v + t), x);
    Regroup(":", v + t, x);
    Regroup(v, t, x);
    Regroup(q, ":", v + (t + x));
    Regroup(sep, q + ":", v + (t + x));
  }

  lemma MembersStart(sep: string, ms: seq<Member>, x: string)
    requires sep == "," || (sep == "" && ms != [])
    ensures var text := Members(sep, ms) + x;
            text != "" && text[0] == if ms == [] then '}' else if sep == "," then ',' else '\"'
  {}

  lemma FirstMemberUnique(sep: string, ms: seq<Member>, ns: seq<Member>, x: string, y: string)
    requires ms != [] && ns != [] && ms[0].name == ns[0].name
    requires Members(sep, ms) + x == Members(sep, ns) + y
    ensures ms[0] == ns[0] && Members(",", ms[1..]) + x == Members(",", ns[1..]) + y
  {
    MembersHead(sep, ms, x);
    MembersHead(sep, ns, y);
    var u, v := Members(",", ms[1..]) + x, Members(",", ns[1..]) + y;
    DropCommonPrefix(sep + (Quote(ms[0].name) + ":"), Nullable(ms[0].value) + u, Nullable(ns[0].value) + v);
    NullableUnique(ms[0].value, ns[0].value, u, v);
  }

  lemma {:induction false} MembersUnique(sep: string, ms: seq<Member>, ns: seq<Member>, x: string, y: string)
    requires SameNames(ms, ns)
    requires sep == "," || (sep == "" && ms != [] && ns != [])
    requires Members(sep, ms) + x == Members(sep, ns) + y
    ensures ms == ns && x == y
    decreases |ms|
  {
    MembersStart(sep, ms, x);
    MembersStart(sep, ns, y);
    if ms == [] && ns == [] {
      DropCommonPrefix("}", x, y);
    } else if ms != [] && ns != [] {
      FirstMemberUnique(sep, ms, ns, x, y);
      MembersUnique(",", ms[1..], ns[1..], x, y);
      assert ms == [ms[0]] + ms[1..] && ns == [ns[0]] + ns[1..];
    }
  }

  lemma FieldsUnique(c: Content, d: Content)
    requires Fields(c) == Fields(d)
    ensures c == d
  {
    var f, g := Fields(c), Fields(d);
    assert f[0] == g[0] && f[1] == g[1] && f[2] == g[2] && f[3] == g[3];
    assert f[4] == g[4] && f[5] == g[5] && f[6] == g[6] && f[7] == g[7];
    if |f| == 9 {
      assert f[8] == g[8];
    }
  }

  /** The canonical text fixes every field of the row, whatever is written behind it. */
  lemma CanonicalizeUnique(c: Content, d: Content, x: string, y: string)
    requires Canonicalize(c) + x == Canonicalize(d) + y
    ensures c == d && x == y
  {
    Regroup("{", Members("", Fields(c)), x);
    Regroup("{", Members("", Fields(d)), y);
    DropCommonPrefix("{", Members("", Fields(c)) + x, Members("", Fields(d)) + y);
    SameNamesOfFields(c, d);
    MembersUnique("", Fields(c), Fields(d), x, y);
    FieldsUnique(c, d);
  }

  lemma SameNamesOfFields(c: Content, d: Content)
    ensures SameNames(Fields(c), Fields(d))
  {}

  // ---- The text itself ----

  function HexValue(c: char): Option<nat> {
    if '0' <= c <= '9' then Some(c as nat - '0' as nat)
    else if 'a' <= c <= 'f' then Some(c as nat - 'a' as nat + 10)
    else if 'A' <= c <= 'F' then Some(c as nat - 'A' as nat + 10)
    else None
  }

  /** Four hex digits, for a character that needs one unit. */
  function HexChar(t: string): Option<char> {
    if |t| < 4 || (exists i :: 0 <= i < 4 && HexValue(t[i]).None?) then None
    else
      var n := 4096 * HexValue(t[0]).value + 256 * HexValue(t[1]).value + 16 * HexValue(t[2]).value + HexValue(t[3]).value;
      if n < 0xD800 || 0xE000 <= n < 0x10000 then Some(n as char) else None
  }

  /** What stands for one character at the start of the text, and the text behind it. */
  function ReadChar(t: string): (r: Option<(char, string)>)
    ensures r.Some? ==> |r.value.1| < |t|
  {
    if t == "" || t[0] == '\"' || t[0] < ' ' then None
    else if t[0] != '\\' then Some((t[0], t[1..]))
    else if |t| < 2 then None
    else match t[1]
      case '\"' => Some(('\"', t[2..]))
      case '\\' => Some(('\\', t[2..]))
      case '/' => Some(('/', t[2..]))
      case 'b' => Some(('\U{08}', t[2..]))
      case 'f' => Some(('\U{0C}', t[2..]))
      case 'n' => Some(('\n', t[2..]))
      case 'r' => Some(('\r', t[2..]))
      case 't' => Some(('\t', t[2..]))
      case 'u' => if HexChar(t[2..]).Some? then Some((HexChar(t[2..]).value, t[6..])) else None
      case _ => None
  }

  /** The string between the quotes, as section 7 of RFC 8259 reads it. */
  function ReadString(t: string): Option<string>
    decreases |t|
  {
    if t == "" then Some("")
    else match ReadChar(t)
      case None => None
      case Some((c, rest)) =>
        match ReadString(rest)
        case None => None
        case Some(s) => Some([c] + s)
  }

  lemma HexReads(c: char, rest: string)
    requires c < ' '
    ensures var t := "00" + ([HEX[c as int / 16], HEX[c as int % 16]] + rest); HexChar(t) == Some(c)
  {
    var t := "00" + ([HEX[c as int / 16], HEX[c as int % 16]] + rest);
    HexDigitReads(c as int / 16);
    HexDigitReads(c as int % 16);
    assert t[0] == '0' && t[1] == '0' && t[2] == HEX[c as int / 16] && t[3] == HEX[c as int % 16];
  }

  lemma HexDigitReads(n: nat)
    requires n < 16
    ensures HexValue(HEX[n]) == Some(n)
  {}

  lemma EscapeReads(c: char, rest: string)
    ensures ReadChar(EscapeChar(c) + rest) == Some((c, rest))
  {
    var t := EscapeChar(c) + rest;
    if IsHexEscaped(c) {
      HexEscape(c);
      HexReads(c, rest);
      assert t[2..] == "00" + ([HEX[c as int / 16], HEX[c as int % 16]] + rest);
      assert t[6..] == rest;
    } else {
      assert t[|EscapeChar(c)|..] == rest;
    }
  }

  /** A JSON parser reads the escaped text back as the string it was made from. */
  lemma {:induction false} EscapedReadsBack(s: string)
    ensures ReadString(EscapeAll(s)) == Some(s)
  {
    if s != "" {
      EscapeReads(s[0], EscapeAll(s[1..]));
      EscapedReadsBack(s[1..]);
      EscapeAllHead(s, "");
      assert s == [s[0]] + s[1..];
    }
  }

  /** The escapes are the short ones of `JSON.stringify`, and hex digits are lower case. */
  lemma EscapeForms(c: char)
    ensures c in "\"\\\n\r\t\U{08}\U{0C}" ==> |EscapeChar(c)| == 2
    ensures IsHexEscaped(c) ==> |EscapeChar(c)| == 6 && forall i :: 0 <= i < 6 ==> !('A' <= EscapeChar(c)[i] <= 'F')
  {
    if IsHexEscaped(c) {
      HexEscape(c);
    }
  }

  /** Text without quotes, backslashes and control characters. */
  predicate PlainText(s: string) {
    forall i :: 0 <= i < |s| ==> s[i] >= ' ' && s[i] != '\"' && s[i] != '\\'
  }

  lemma {:induction false} PlainTextAsIs(s: string)
    requires PlainText(s)
    ensures EscapeAll(s) == s && Quote(s) == "\"" + (s + "\"")
  {
    if s != "" {
      PlainTextAsIs(s[1..]);
      assert EscapeChar(s[0]) == [s[0]];
      assert s == [s[0]] + s[1..];
    }
  }

  predicate PlainField(v: Option<string>) {
    v.Some? ==> PlainText(v.value)
  }

  predicate PlainRow(c: Content) {
    && PlainText(c.id) && PlainField(c.userId) && PlainText(c.action) && PlainText(c.entity) && PlainField(c.entityId)
    && PlainField(c.ipAddress) && PlainField(c.userAgent) && PlainText(c.createdAt) && PlainField(c.details)
  }

  /** A field of plain text as it stands in the object: in quotes, or null. */
  function Plainly(v: Option<string>): string {
    match v
    case None => "null"
    case Some(s) => "\"" + (s + "\"")
  }

  lemma PlainNullable(v: Option<string>)
    requires PlainField(v)
    ensures Nullable(v) == Plainly(v)
  {
    if v.Some? {
      PlainTextAsIs(v.value);
    }
  }

  function Pieces(ms: seq<Member>): (r: seq<string>)
    ensures |r| == |ms| && forall i :: 0 <= i < |r| ==> r[i] == "\"" + (ms[i].name + ("\":" + Plainly(ms[i].value)))
  {
    seq(|ms|, i requires 0 <= i < |ms| => "\"" + (ms[i].name + ("\":" + Plainly(ms[i].value))))
  }

  function JoinComma(ps: seq<string>): string
    requires ps != []
  {
    if |ps| == 1 then ps[0] else ps[0] + ("," + JoinComma(ps[1..]))
  }

  lemma PieceText(name: string, v: string, rest: string)
    ensures ("\"" + (name + "\"")) + (":" + (v + rest)) == ("\"" + (name + ("\":" + v))) + rest
  {
    var w := v + rest;
    Regroup("\"", name + "\"", ":" + w);
    Regroup(name, "\"", ":" + w);
    assert "\"" + (":" + w) == "\":" + w;
    Regroup("\":", v, rest);
    Regroup(name, "\":" + v, rest);
    Regroup("\"", name + ("\":" + v), rest);
  }

  lemma PlainMember(sep: string, ms: seq<Member>)
    requires ms != [] && PlainText(ms[0].name) && PlainField(ms[0].value)
    ensures Members(sep, ms) == sep + (Pieces(ms)[0] + Members(",", ms[1..]))
  {
    PlainNullable(ms[0].value);
    PlainTextAsIs(ms[0].name);
    PieceText(ms[0].name, Plainly(ms[0].value), Members(",", ms[1..]));
  }

  ghost predicate AllPlain(ms: seq<Member>) {
    forall m :: m in ms ==> PlainText(m.name) && PlainField(m.value)
  }

  lemma PiecesTail(ms: seq<Member>)
    requires ms != [] && AllPlain(ms)
    ensures Pieces(ms)[1..] == Pieces(ms[1..]) && AllPlain(ms[1..]) && PlainText(ms[0].name) && PlainField(ms[0].value)
  {}

  lemma JoinStep(sep: string, p: string, rest: string)
    ensures sep + (p + ("," + (rest + "}"))) == sep + ((p + ("," + rest)) + "}")
  {
    Regroup(p, "," + rest, "}");
    Regroup(",", rest, "}");
  }

  lemma {:induction false} PlainMembers(sep: string, ms: seq<Member>)
    requires ms != [] && AllPlain(ms)
    ensures Members(sep, ms) == sep + (JoinComma(Pieces(ms)) + "}")
    decreases |ms|
  {
    PiecesTail(ms);
    PlainMember(sep, ms);
    if |ms| > 1 {
      PlainMembers(",", ms[1..]);
      JoinStep(sep, Pieces(ms)[0], JoinComma(Pieces(ms[1..])));
    }
  }

  /** The members in their order; a row without details has none of that name, as the oldest rows. */
  lemma MembersInOrder(c: Content)
    ensures var ms := Fields(c);
            && |ms| == 8 + (if c.details.Some? then 1 else 0)
            && ms[0] == Member("id", Some(c.id)) && ms[1] == Member("userId", c.userId)
            && ms[2] == Member("action", Some(c.action)) && ms[3] == Member("entity", Some(c.entity))
            && ms[4] == Member("entityId", c.entityId) && ms[5] == Member("ipAddress", c.ipAddress)
            && ms[6] == Member("userAgent", c.userAgent) && ms[7] == Member("createdAt", Some(c.createdAt))
            && (c.details.Some? ==> ms[8] == Member("details", c.details))
  {}

  lemma NamesArePlain()
    ensures PlainText("id") && PlainText("userId") && PlainText("action") && PlainText("entity") && PlainText("entityId")
    ensures PlainText("ipAddress") && PlainText("userAgent") && PlainText("createdAt") && PlainText("details")
  {}

  lemma FieldsArePlain(c: Content)
    requires PlainRow(c)
    ensures AllPlain(Fields(c))
  {
    NamesArePlain();
  }

  lemma PlainObject(ms: seq<Member>)
    requires ms != [] && AllPlain(ms)
    ensures "{" + Members("", ms) == "{" + (JoinComma(Pieces(ms)) + "}")
  {
    PlainMembers("", ms);
    assert "" + (JoinComma(Pieces(ms)) + "}") == JoinComma(Pieces(ms)) + "}";
  }

  /**
    The hashed text of a row of plain text: the object of its members in their order, each
    with its value in quotes or null.
   */
  lemma PlainRowText(c: Content, ms: seq<Member>)
    requires PlainRow(c) && ms == Fields(c)
    ensures Canonicalize(c) == "{" + (JoinComma(Pieces(ms)) + "}")
  {
    FieldsArePlain(c);
    PlainObject(ms);
  }
}
