/**
  Secrets merged into a `.env` file: values are written in quotes that two parsers read alike,
  known keys are replaced where they stand, new ones appended, and trailing blank lines dropped.
 */
module DotenvSync {
  import opened Common

  // ---- Keys and values ----

  predicate IsUpper(c: char) {
    'A' <= c <= 'Z' || '0' <= c <= '9' || c == '_'
  }

  predicate IsWord(c: char) {
    IsUpper(c) || 'a' <= c <= 'z'
  }

  predicate IsValidEnvKey(key: string) {
    key != "" && !('0' <= key[0] <= '9') && forall i :: 0 <= i < |key| ==> IsWord(key[i])
  }

  /** The keys the merge finds in existing lines: no lower-case letter. */
  predicate IsUpperKey(key: string) {
    forall i :: 0 <= i < |key| ==> IsUpper(key[i])
  }

  const UPPER_CASE := "ABCDEFGHIJKLMNOPQRSTUVWXYZ"
  const LOWER_CASE := "abcdefghijklmnopqrstuvwxyz"
  const DIGITS := "0123456789"
  const KEY_CHARS := UPPER_CASE + DIGITS + "_"
  const NAME_CHARS := UPPER_CASE + LOWER_CASE + DIGITS + "_"

  predicate Over(alphabet: string, s: string) {
    forall i :: 0 <= i < |s| ==> s[i] in alphabet
  }

  /** `^[A-Za-z_][A-Za-z0-9_]*$` */
  predicate LegalName(key: string) {
    key != "" && key[0] !in DIGITS && Over(NAME_CHARS, key)
  }

  /** `^([A-Z0-9_]+)=` with this group. */
  predicate BeginsWithKey(line: string, key: string) {
    key != "" && Over(KEY_CHARS, key) && key + "=" <= line
  }

  lemma UpperCaseIff(c: char)
    ensures c in UPPER_CASE <==> 'A' <= c <= 'Z'
  {}

  lemma LowerCaseIff(c: char)
    ensures c in LOWER_CASE <==> 'a' <= c <= 'z'
  {}

  lemma DigitIff(c: char)
    ensures c in DIGITS <==> '0' <= c <= '9'
  {}

  lemma CharIff(c: char)
    ensures IsUpper(c) <==> c in KEY_CHARS
    ensures IsWord(c) <==> c in NAME_CHARS
  {
    UpperCaseIff(c);
    LowerCaseIff(c);
    DigitIff(c);
  }

  /** Which keys are accepted, character by character. */
  lemma ValidIffLegal(key: string)
    ensures IsValidEnvKey(key) <==> LegalName(key)
  {
    if key != "" {
      DigitIff(key[0]);
    }
    forall i | 0 <= i < |key|
      ensures IsWord(key[i]) <==> key[i] in NAME_CHARS
    {
      CharIff(key[i]);
    }
  }

  lemma UpperKeyIff(key: string)
    ensures IsUpperKey(key) <==> Over(KEY_CHARS, key)
  {
    forall i | 0 <= i < |key|
      ensures IsUpper(key[i]) <==> key[i] in KEY_CHARS
    {
      CharIff(key[i]);
    }
  }

  predicate NeedsEscape(v: string) {
    '\"' in v || '\\' in v || '$' in v || '\r' in v || '\n' in v
  }

  function EncodeDotenvValue(v: string): Option<string> {
    if '\'' !in v then Some("'" + (v + "'"))
    else if !NeedsEscape(v) then Some("\"" + (v + "\""))
    else None
  }

  // ---- The two parsers ----

  /** Where `q` first stands in the text, or its length. */
  function FirstAt(s: string, q: char): (n: nat)
    ensures n <= |s| && (n < |s| ==> s[n] == q) && forall i :: 0 <= i < n ==> s[i] != q
  {
    if s == "" || s[0] == q then 0 else 1 + FirstAt(s[1..], q)
  }

  /** The text from an opening quote to the first one like it, if nothing follows that one. */
  function Body(s: string): Option<string> {
    if s == "" || (s[0] != '\'' && s[0] != '\"') then None
    else
      var n := FirstAt(s[1..], s[0]);
      if n + 2 == |s| then Some(s[1..n + 1]) else None
  }

  function ExpandLineEnds(s: string): string {
    if |s| < 2 then s
    else if s[..2] == "\\n" then "\n" + ExpandLineEnds(s[2..])
    else if s[..2] == "\\r" then "\r" + ExpandLineEnds(s[2..])
    else [s[0]] + ExpandLineEnds(s[1..])
  }

  /** `dotenv`: text in single quotes as it stands; in double quotes `\n` and `\r` become line ends. */
  function ReadDotenv(s: string): Option<string> {
    match Body(s)
    case None => None
    case Some(b) => Some(if s[0] == '\"' then ExpandLineEnds(b) else b)
  }

  type Expansion = string -> Option<string>

  /**
    Compose: text in single quotes as it stands; in double quotes a backslash, a dollar sign
    or a line end starts something, and nothing is assumed about what `expand` makes of it.
   */
  function ReadCompose(s: string, expand: Expansion): Option<string> {
    match Body(s)
    case None => None
    case Some(b) =>
      if s[0] == '\"' && ('\\' in b || '$' in b || '\r' in b || '\n' in b) then expand(b) else Some(b)
  }

  /** Both parsers read the text as this value, whatever Compose expands to what. */
  ghost predicate ReadsAs(text: string, v: string) {
    ReadDotenv(text) == Some(v) && forall expand: Expansion :: ReadCompose(text, expand) == Some(v)
  }

  lemma BodyOf(q: char, v: string)
    requires (q == '\'' || q == '\"') && q !in v
    ensures Body([q] + (v + [q])) == Some(v)
  {
    var s := [q] + (v + [q]);
    assert s[1..] == v + [q];
    assert (v + [q])[|v|] == q && forall i :: 0 <= i < |v| ==> (v + [q])[i] == v[i] && v[i] in v;
    assert s[1..|v| + 1] == v;
  }

  lemma BodyHasNoQuote(s: string)
    requires Body(s).Some?
    ensures s[0] !in Body(s).value
  {
    var n := FirstAt(s[1..], s[0]);
    assert forall i :: 0 <= i < n ==> s[1..n + 1][i] == s[1..][i];
  }

  lemma {:induction false} NothingToExpand(s: string)
    requires '\\' !in s
    ensures ExpandLineEnds(s) == s
  {
    if |s| >= 2 {
      assert s[..2][0] == s[0] && s[0] in s && forall c :: c in s[1..] ==> c in s;
      NothingToExpand(s[1..]);
      assert s == [s[0]] + s[1..];
    }
  }

  /** What is written is read back by both parsers as it was, and stays on one line if the value does. */
  lemma EncodedReadsBack(v: string)
    requires EncodeDotenvValue(v).Some?
    ensures ReadsAs(EncodeDotenvValue(v).value, v)
    ensures EncodeDotenvValue(v).value[0] == '\'' <==> '\'' !in v
    ensures '\n' !in v ==> OneLine(EncodeDotenvValue(v).value)
    ensures Strip(EncodeDotenvValue(v).value) == EncodeDotenvValue(v).value
  {
    if '\'' !in v {
      BodyOf('\'', v);
    } else {
      BodyOf('\"', v);
      NothingToExpand(v);
    }
  }

  ghost predicate Encodable(v: string) {
    exists text :: ReadsAs(text, v)
  }

  /** A value is refused only if no text in quotes would be read back as it by both parsers. */
  lemma EncodableIff(v: string)
    ensures EncodeDotenvValue(v).Some? <==> Encodable(v)
  {
    if EncodeDotenvValue(v).Some? {
      EncodedReadsBack(v);
    }
    if text :| ReadsAs(text, v) {
      BodyHasNoQuote(text);
      var giveUp: Expansion := _ => None;
      assert ReadCompose(text, giveUp) == Some(v);
    }
  }

  // ---- Lines ----

  predicate OneLine(s: string) {
    '\n' !in s
  }

  /** A line without the carriage return that belongs to its line end. */
  function Strip(s: string): string {
    if s != "" && s[|s| - 1] == '\r' then s[..|s| - 1] else s
  }

  /** `text.split(/\r?\n/)`. */
  function SplitLines(text: string): (lines: seq<string>)
    ensures lines != [] && forall l :: l in lines ==> OneLine(l)
    decreases |text|
  {
    if text == "" then [""]
    else if text[0] == '\n' then [""] + SplitLines(text[1..])
    else if |text| >= 2 && text[..2] == "\r\n" then [""] + SplitLines(text[2..])
    else
      var rest := SplitLines(text[1..]);
      assert rest[0] in rest && forall l :: l in rest[1..] ==> l in rest;
      [[text[0]] + rest[0]] + rest[1..]
  }

  /** The lines, each followed by a newline: `join('\n') + '\n'` of a list that is not empty. */
  function Unlines(lines: seq<string>): string {
    if lines == [] then "" else lines[0] + ("\n" + Unlines(lines[1..]))
  }

  function StripAll(lines: seq<string>): (r: seq<string>)
    ensures |r| == |lines| && forall i :: 0 <= i < |r| ==> r[i] == Strip(lines[i])
  {
    seq(|lines|, i requires 0 <= i < |lines| => Strip(lines[i]))
  }

  /** The key of a line that begins with `KEY=`, KEY having no lower-case letter. */
  function UpperPrefix(s: string): (n: nat)
    ensures n <= |s| && (forall i :: 0 <= i < n ==> IsUpper(s[i])) && (n < |s| ==> !IsUpper(s[n]))
  {
    if s != "" && IsUpper(s[0]) then 1 + UpperPrefix(s[1..]) else 0
  }

  function LineKey(line: string): Option<string> {
    var n := UpperPrefix(line);
    if 0 < n < |line| && line[n] == '=' then Some(line[..n]) else None
  }

  type Encoded = map<string, string>

  function EntryLine(key: string, enc: Encoded): string
    requires key in enc
  {
    key + ("=" + enc[key])
  }

  predicate Matches(line: string, enc: Encoded) {
    LineKey(line).Some? && LineKey(line).value in enc
  }

  function MergeLine(line: string, enc: Encoded): string {
    if Matches(line, enc) then EntryLine(LineKey(line).value, enc) else line
  }

  function MergeAll(lines: seq<string>, enc: Encoded): (r: seq<string>)
    ensures |r| == |lines| && forall i :: 0 <= i < |r| ==> r[i] == MergeLine(lines[i], enc)
  {
    seq(|lines|, i requires 0 <= i < |lines| => MergeLine(lines[i], enc))
  }

  predicate HasLine(lines: seq<string>, key: string) {
    exists i :: 0 <= i < |lines| && LineKey(lines[i]) == Some(key)
  }

  /** The entries for the keys that no existing line carries. */
  function NewEntries(lines: seq<string>, keys: seq<string>, enc: Encoded): seq<string>
    requires forall k :: k in keys ==> k in enc
  {
    if keys == [] then []
    else NewEntries(lines, keys[..|keys| - 1], enc)
         + if HasLine(lines, keys[|keys| - 1]) then [] else [EntryLine(keys[|keys| - 1], enc)]
  }

  function TrimBlank(lines: seq<string>): seq<string> {
    if lines != [] && lines[|lines| - 1] == "" then TrimBlank(lines[..|lines| - 1]) else lines
  }

  function Merged(lines: seq<string>, keys: seq<string>, enc: Encoded): seq<string>
    requires forall k :: k in keys ==> k in enc
  {
    TrimBlank(MergeAll(lines, enc) + NewEntries(lines, keys, enc))
  }

  lemma HasLineSnoc(lines: seq<string>, i: nat)
    requires i < |lines|
    ensures forall k :: HasLine(lines[..i + 1], k) <==> HasLine(lines[..i], k) || LineKey(lines[i]) == Some(k)
  {
    forall k
      ensures HasLine(lines[..i + 1], k) <==> HasLine(lines[..i], k) || LineKey(lines[i]) == Some(k)
    {
      if HasLine(lines[..i + 1], k) {
        var j :| 0 <= j < i + 1 && LineKey(lines[..i + 1][j]) == Some(k);
        assert j < i ==> lines[..i][j] == lines[j];
      }
      if HasLine(lines[..i], k) {
        var j :| 0 <= j < i && LineKey(lines[..i][j]) == Some(k);
        assert lines[..i + 1][j] == lines[j];
      }
      if LineKey(lines[i]) == Some(k) {
        assert lines[..i + 1][i] == lines[i];
      }
    }
  }

  ghost predicate UpdatedSoFar(updatedKeys: set<string>, lines: seq<string>, enc: Encoded) {
    forall k :: k in updatedKeys <==> k in enc && HasLine(lines, k)
  }

  lemma UpdatedOneMore(before: set<string>, lines: seq<string>, i: nat, enc: Encoded, after: set<string>)
    requires i < |lines| && UpdatedSoFar(before, lines[..i], enc)
    requires after == if Matches(lines[i], enc) then before + {LineKey(lines[i]).value} else before
    ensures UpdatedSoFar(after, lines[..i + 1], enc)
  {
    HasLineSnoc(lines, i);
  }

  lemma PrefixSnoc(lines: seq<string>, i: nat)
    requires i < |lines|
    ensures lines[..i + 1] == lines[..i] + [lines[i]]
  {}

  /** First pass of the merge: entries replaced where they stand. */
  method ReplaceInPlace(existingLines: seq<string>, enc: Encoded) returns (mergedLines: seq<string>, updatedKeys: set<string>)
    ensures mergedLines == MergeAll(existingLines, enc)
    ensures forall k :: k in updatedKeys <==> k in enc && HasLine(existingLines, k)
  {
    updatedKeys, mergedLines := {}, [];
    for i := 0 to |existingLines|
      invariant mergedLines == MergeAll(existingLines, enc)[..i]
      invariant UpdatedSoFar(updatedKeys, existingLines[..i], enc)
    {
      var line := existingLines[i];
      var key := LineKey(line);
      ghost var before := updatedKeys;
      if key.Some? && key.value in enc {
        updatedKeys := updatedKeys + {key.value};
        mergedLines := mergedLines + [key.value + ("=" + enc[key.value])];
      } else {
        mergedLines := mergedLines + [line];
      }
      UpdatedOneMore(before, existingLines, i, enc, updatedKeys);
      PrefixSnoc(MergeAll(existingLines, enc), i);
    }
    assert existingLines[..|existingLines|] == existingLines;
  }

  lemma NewEntriesSnoc(lines: seq<string>, keys: seq<string>, n: nat, enc: Encoded)
    requires n < |keys| && forall k :: k in keys ==> k in enc
    ensures keys[n] in enc
    ensures NewEntries(lines, keys[..n + 1], enc)
         == NewEntries(lines, keys[..n], enc) + if HasLine(lines, keys[n]) then [] else [EntryLine(keys[n], enc)]
  {
    assert keys[..n + 1][..n] == keys[..n] && keys[n] in keys;
  }

  /** The merge of `main`: replace in place, append what was not replaced, drop trailing blanks. */
  method MergeLines(existingLines: seq<string>, keys: seq<string>, enc: Encoded) returns (mergedLines: seq<string>)
    requires enc.Keys == set k | k in keys
    ensures mergedLines == Merged(existingLines, keys, enc)
  {
    var updatedKeys;
    mergedLines, updatedKeys := ReplaceInPlace(existingLines, enc);
    for n := 0 to |keys|
      invariant mergedLines == MergeAll(existingLines, enc) + NewEntries(existingLines, keys[..n], enc)
    {
      NewEntriesSnoc(existingLines, keys, n, enc);
      if keys[n] !in updatedKeys {
        mergedLines := mergedLines + [keys[n] + ("=" + enc[keys[n]])];
      }
    }
    assert keys[..|keys|] == keys;
    while |mergedLines| > 0 && mergedLines[|mergedLines| - 1] == ""
      invariant TrimBlank(mergedLines) == Merged(existingLines, keys, enc)
    {
      mergedLines := mergedLines[..|mergedLines| - 1];
    }
  }

  // ---- The whole sync, after the secret has been read ----

  datatype Failure = NoSecret | InvalidKeys(keys: seq<string>) | Unencodable(keys: seq<string>)

  datatype Outcome = Untouched(why: Failure) | Written(text: string)

  function Select(keys: seq<string>, bad: string -> bool): (r: seq<string>)
    ensures forall k :: k in r <==> k in keys && bad(k)
  {
    if keys == [] then [] else (if bad(keys[0]) then [keys[0]] else []) + Select(keys[1..], bad)
  }

  function EncodeAll(secret: map<string, string>): Encoded {
    map k | k in secret && EncodeDotenvValue(secret[k]).Some? :: EncodeDotenvValue(secret[k]).value
  }

  predicate Writable(keys: seq<string>, secret: map<string, string>)
    requires secret.Keys == set k | k in keys
  {
    keys != [] && forall k :: k in keys ==> IsValidEnvKey(k) && EncodeDotenvValue(secret[k]).Some?
  }

  method EncodeSecrets(keys: seq<string>, secret: map<string, string>)
    returns (encoded: Encoded, unencodable: seq<string>)
    requires secret.Keys == set k | k in keys
    ensures encoded == EncodeAll(secret)
    ensures forall k :: k in unencodable <==> k in keys && !Encodable(secret[k])
  {
    encoded, unencodable := map[], [];
    for n := 0 to |keys|
      invariant encoded.Keys == set k | k in keys[..n] && EncodeDotenvValue(secret[k]).Some?
      invariant forall k :: k in encoded ==> encoded[k] == EncodeDotenvValue(secret[k]).value
      invariant forall k :: k in unencodable <==> k in keys[..n] && EncodeDotenvValue(secret[k]).None?
    {
      var value := EncodeDotenvValue(secret[keys[n]]);
      assert keys[..n + 1] == keys[..n] + [keys[n]];
      if value.None? {
        unencodable := unencodable + [keys[n]];
      } else {
        encoded := encoded[keys[n] := value.value];
      }
    }
    assert keys[..|keys|] == keys;
    forall k | k in keys
      ensures EncodeDotenvValue(secret[k]).Some? <==> Encodable(secret[k])
    {
      EncodableIff(secret[k]);
    }
  }

  /**
    The outcome in the order of the checks: no secret at all, then the keys with no legal name,
    then the values that no quoted text is read as, and only then is anything written.
   */
  ghost predicate Explained(outcome: Outcome, keys: seq<string>, secret: map<string, string>)
    requires secret.Keys == set k | k in keys
  {
    if keys == [] then
      outcome == Untouched(NoSecret)
    else if exists k :: k in keys && !LegalName(k) then
      outcome.Untouched? && outcome.why.InvalidKeys? && forall k :: k in outcome.why.keys <==> k in keys && !LegalName(k)
    else if exists k :: k in keys && !Encodable(secret[k]) then
      outcome.Untouched? && outcome.why.Unencodable? && forall k :: k in outcome.why.keys <==> k in keys && !Encodable(secret[k])
    else
      outcome.Written?
  }

  lemma ExplainInvalid(keys: seq<string>, secret: map<string, string>, bad: seq<string>)
    requires secret.Keys == set k | k in keys
    requires bad != [] && forall k :: k in bad <==> k in keys && !IsValidEnvKey(k)
    ensures Explained(Untouched(InvalidKeys(bad)), keys, secret)
  {
    assert bad[0] in bad;
    forall k
      ensures IsValidEnvKey(k) <==> LegalName(k)
    {
      ValidIffLegal(k);
    }
  }

  lemma ExplainUnencodable(keys: seq<string>, secret: map<string, string>, bad: seq<string>)
    requires secret.Keys == set k | k in keys
    requires forall k :: k in keys ==> IsValidEnvKey(k)
    requires bad != [] && forall k :: k in bad <==> k in keys && !Encodable(secret[k])
    ensures Explained(Untouched(Unencodable(bad)), keys, secret)
  {
    assert bad[0] in bad;
    forall k | k in keys
      ensures LegalName(k)
    {
      ValidIffLegal(k);
    }
  }

  lemma ExplainWritten(keys: seq<string>, secret: map<string, string>, text: string)
    requires secret.Keys == (set k | k in keys) && Writable(keys, secret)
    ensures Explained(Written(text), keys, secret)
  {
    forall k | k in keys
      ensures LegalName(k) && Encodable(secret[k])
    {
      ValidIffLegal(k);
      EncodableIff(secret[k]);
    }
  }

  lemma NotWritable(keys: seq<string>, secret: map<string, string>, k: string)
    requires secret.Keys == (set k | k in keys) && k in keys && !Encodable(secret[k])
    ensures !Writable(keys, secret)
  {
    EncodableIff(secret[k]);
  }

  lemma AllWritable(keys: seq<string>, secret: map<string, string>)
    requires secret.Keys == (set k | k in keys) && keys != []
    requires forall k :: k in keys ==> IsValidEnvKey(k) && Encodable(secret[k])
    ensures Writable(keys, secret) && EncodeAll(secret).Keys == secret.Keys
  {
    forall k | k in keys
      ensures EncodeDotenvValue(secret[k]).Some?
    {
      EncodableIff(secret[k]);
    }
  }

  /** Either the file is not touched at all, or every key and value was fit to be written. */
  method SyncSecrets(file: Option<string>, keys: seq<string>, secret: map<string, string>) returns (outcome: Outcome)
    requires secret.Keys == set k | k in keys
    ensures outcome.Written? <==> Writable(keys, secret)
    ensures Explained(outcome, keys, secret)
    ensures outcome.Written? ==> EncodeAll(secret).Keys == secret.Keys
    ensures outcome.Written? && file.None? ==> outcome.text == Unlines(Merged([], keys, EncodeAll(secret)))
    ensures outcome.Written? && file.Some? ==> outcome.text == Unlines(Merged(SplitLines(file.value), keys, EncodeAll(secret)))
  {
    if keys == [] {
      return Untouched(NoSecret);
    }
    var invalidKeys := Select(keys, k => !IsValidEnvKey(k));
    if invalidKeys != [] {
      assert invalidKeys[0] in invalidKeys;
      ExplainInvalid(keys, secret, invalidKeys);
      return Untouched(InvalidKeys(invalidKeys));
    }
    assert forall k :: k in keys ==> k !in invalidKeys;
    var encoded, unencodable := EncodeSecrets(keys, secret);
    if unencodable != [] {
      ExplainUnencodable(keys, secret, unencodable);
      NotWritable(keys, secret, unencodable[0]);
      return Untouched(Unencodable(unencodable));
    }
    AllWritable(keys, secret);
    var existingLines: seq<string> := [];
    if file.Some? {
      existingLines := SplitLines(file.value);
    }
    var mergedLines := MergeLines(existingLines, keys, encoded);
    outcome := Written(Unlines(mergedLines));
    ExplainWritten(keys, secret, outcome.text);
  }

  // ---- Cutting the written text into lines again ----

  lemma {:induction false} SplitFirst(l: string, rest: string)
    requires OneLine(l)
    ensures SplitLines(l + ("\n" + rest)) == [Strip(l)] + SplitLines(rest)
  {
    var text := l + ("\n" + rest);
    if l == "" {
      assert text[1..] == rest;
    } else if l == "\r" {
      assert text[..2] == "\r\n" && text[2..] == rest;
    } else {
      assert text[0] == l[0] && text[1..] == l[1..] + ("\n" + rest);
      assert |l| >= 2 ==> text[1] == l[1] && l[1] in l;
      assert l[0] in l && forall c :: c in l[1..] ==> c in l;
      assert |l| == 1 ==> l == [l[0]];
      assert text[..2] != "\r\n" by {
        assert text[..2][0] == text[0] && text[..2][1] == text[1];
      }
      SplitFirst(l[1..], rest);
      assert Strip(l) == [l[0]] + Strip(l[1..]);
    }
  }

  lemma {:induction false} SplitAlone(l: string)
    requires OneLine(l)
    ensures SplitLines(l) == [l]
  {
    if l != "" {
      assert l[0] in l && forall c :: c in l[1..] ==> c in l;
      assert |l| >= 2 ==> l[..2][1] in l;
      SplitAlone(l[1..]);
      assert [l[0]] + l[1..] == l;
    }
  }

  /** Any text is some lines with their ends and a last one without; these are what it is cut into. */
  lemma {:induction false} SplitText(lines: seq<string>, last: string)
    requires (forall l :: l in lines ==> OneLine(l)) && OneLine(last)
    ensures SplitLines(Unlines(lines) + last) == StripAll(lines) + [last]
  {
    if lines == [] {
      SplitAlone(last);
      assert Unlines(lines) + last == last && StripAll(lines) + [last] == [last];
    } else {
      SplitText(lines[1..], last);
      var rest := Unlines(lines[1..]) + last;
      assert Unlines(lines) + last == lines[0] + ("\n" + rest);
      SplitFirst(lines[0], rest);
      assert StripAll(lines) == [Strip(lines[0])] + StripAll(lines[1..]);
    }
  }

  /** Reading back gives the lines, each without a carriage return at its end, and an empty one. */
  lemma SplitUnlines(lines: seq<string>)
    requires forall l :: l in lines ==> OneLine(l)
    ensures SplitLines(Unlines(lines)) == StripAll(lines) + [""]
  {
    SplitText(lines, "");
    assert Unlines(lines) + "" == Unlines(lines);
  }

  // ---- Reading keys, the last entry winning ----

  predicate Starts(line: string, key: string) {
    key + "=" <= line
  }

  function LastValue(lines: seq<string>, key: string): Option<string> {
    if lines == [] then None
    else if Starts(lines[|lines| - 1], key) then Some(lines[|lines| - 1][|key| + 1..])
    else LastValue(lines[..|lines| - 1], key)
  }

  lemma LineKeyStarts(line: string)
    requires LineKey(line).Some?
    ensures Starts(line, LineKey(line).value) && IsUpperKey(LineKey(line).value) && LineKey(line).value != ""
  {}

  lemma UpperKeyFound(line: string, key: string)
    requires key != "" && IsUpperKey(key) && Starts(line, key)
    ensures LineKey(line) == Some(key)
  {
    var n := UpperPrefix(line);
    assert line[|key|] == (key + "=")[|key|] == '=';
    assert line[..|key|] == key;
    assert forall i :: 0 <= i < |key| ==> line[i] == key[i];
  }

  lemma EntryStarts(k: string, key: string, enc: Encoded)
    requires k in enc && '=' !in k && '=' !in key
    ensures Starts(EntryLine(k, enc), key) <==> k == key
    ensures EntryLine(k, enc)[|k| + 1..] == enc[k]
  {
    var line := EntryLine(k, enc);
    assert line[|k|] == '=';
    if Starts(line, key) {
      assert line[|key|] == (key + "=")[|key|] == '=';
      assert line[..|key|] == key && line[..|k|] == k;
      assert forall i :: 0 <= i < |k| ==> line[i] == k[i] && k[i] in k;
      assert forall i :: 0 <= i < |key| ==> line[i] == key[i] && key[i] in key;
    }
  }

  lemma {:induction false} LastValueConcat(a: seq<string>, b: seq<string>, key: string)
    ensures LastValue(a + b, key) == if LastValue(b, key).Some? then LastValue(b, key) else LastValue(a, key)
  {
    if b == [] {
      assert a + b == a;
    } else {
      assert (a + b)[..|a + b| - 1] == a + b[..|b| - 1];
      LastValueConcat(a, b[..|b| - 1], key);
    }
  }

  lemma {:induction false} TrimKeepsValues(lines: seq<string>, key: string)
    ensures LastValue(TrimBlank(lines), key) == LastValue(lines, key)
  {
    if lines != [] && lines[|lines| - 1] == "" {
      TrimKeepsValues(lines[..|lines| - 1], key);
    }
  }

  ghost predicate GoodKeys(enc: Encoded) {
    forall k :: k in enc ==> IsValidEnvKey(k) && Quoted(enc[k])
  }

  predicate Quoted(e: string) {
    |e| >= 2 && (e[|e| - 1] == '\'' || e[|e| - 1] == '\"')
  }

  lemma ValidKeyPlain(k: string)
    requires IsValidEnvKey(k)
    ensures '=' !in k && OneLine(k)
  {}

  lemma MergedLineValue(line: string, key: string, enc: Encoded)
    requires GoodKeys(enc) && key in enc && IsUpperKey(key)
    ensures Starts(MergeLine(line, enc), key) <==> LineKey(line) == Some(key)
    ensures LineKey(line) == Some(key) ==> MergeLine(line, enc)[|key| + 1..] == enc[key]
  {
    ValidKeyPlain(key);
    if Matches(line, enc) {
      ValidKeyPlain(LineKey(line).value);
      EntryStarts(LineKey(line).value, key, enc);
    } else if Starts(line, key) {
      UpperKeyFound(line, key);
    }
  }

  lemma {:induction false} ReplacedValue(lines: seq<string>, key: string, enc: Encoded)
    requires GoodKeys(enc) && key in enc && IsUpperKey(key)
    ensures LastValue(MergeAll(lines, enc), key) == if HasLine(lines, key) then Some(enc[key]) else None
  {
    if lines != [] {
      var n := |lines| - 1;
      ReplacedValue(lines[..n], key, enc);
      MergedLineValue(lines[n], key, enc);
      assert MergeAll(lines, enc)[..n] == MergeAll(lines[..n], enc);
      HasLineSnoc(lines, n);
      assert lines[..n + 1] == lines;
    }
  }

  lemma {:induction false} AppendedValue(lines: seq<string>, keys: seq<string>, key: string, enc: Encoded)
    requires GoodKeys(enc) && key in enc && forall k :: k in keys ==> k in enc
    ensures LastValue(NewEntries(lines, keys, enc), key)
         == if key in keys && !HasLine(lines, key) then Some(enc[key]) else None
  {
    if keys != [] {
      var n := |keys| - 1;
      assert keys == keys[..n] + [keys[n]];
      AppendedValue(lines, keys[..n], key, enc);
      var prior := NewEntries(lines, keys[..n], enc);
      assert keys[n] in keys;
      ValidKeyPlain(keys[n]);
      ValidKeyPlain(key);
      EntryStarts(keys[n], key, enc);
      if HasLine(lines, keys[n]) {
        assert NewEntries(lines, keys, enc) == prior + [] == prior;
      } else {
        assert (prior + [EntryLine(keys[n], enc)])[..|prior|] == prior;
      }
    }
  }

  /** After the merge every secret has its new value, the last entry of a key winning. */
  lemma MergeSetsEverySecret(lines: seq<string>, keys: seq<string>, enc: Encoded, key: string)
    requires GoodKeys(enc) && (forall k :: k in keys ==> k in enc) && key in keys
    ensures LastValue(Merged(lines, keys, enc), key) == Some(enc[key])
  {
    var a, b := MergeAll(lines, enc), NewEntries(lines, keys, enc);
    TrimKeepsValues(a + b, key);
    LastValueConcat(a, b, key);
    AppendedValue(lines, keys, key, enc);
    if HasLine(lines, key) {
      var i :| 0 <= i < |lines| && LineKey(lines[i]) == Some(key);
      LineKeyStarts(lines[i]);
      ReplacedValue(lines, key, enc);
    }
  }

  lemma {:induction false} TrimIsPrefix(lines: seq<string>)
    ensures TrimBlank(lines) <= lines
    ensures forall i :: |TrimBlank(lines)| <= i < |lines| ==> lines[i] == ""
    ensures TrimBlank(lines) != [] ==> TrimBlank(lines)[|TrimBlank(lines)| - 1] != ""
    ensures lines != [] && lines[|lines| - 1] != "" ==> TrimBlank(lines) == lines
  {
    if lines != [] && lines[|lines| - 1] == "" {
      TrimIsPrefix(lines[..|lines| - 1]);
    }
  }

  /** Every other line stays where it is, except blank lines at the end; the rest is new entries. */
  lemma MergeKeepsOtherLines(lines: seq<string>, keys: seq<string>, enc: Encoded, i: nat)
    requires (forall k :: k in keys ==> k in enc) && i < |lines|
    ensures var out := Merged(lines, keys, enc);
            && out <= MergeAll(lines, enc) + NewEntries(lines, keys, enc)
            && (!Matches(lines[i], enc) ==> if i < |out| then out[i] == lines[i] else lines[i] == "")
            && (Matches(lines[i], enc) ==> i < |out| && out[i] == EntryLine(LineKey(lines[i]).value, enc))
  {
    var all := MergeAll(lines, enc) + NewEntries(lines, keys, enc);
    TrimIsPrefix(all);
    assert all[i] == MergeLine(lines[i], enc);
    var out := Merged(lines, keys, enc);
    assert i < |out| ==> out[i] == all[i];
  }

  lemma LineKeyIff(line: string, key: string)
    ensures LineKey(line) == Some(key) <==> BeginsWithKey(line, key)
  {
    UpperKeyIff(key);
    if LineKey(line) == Some(key) {
      LineKeyStarts(line);
    }
    if BeginsWithKey(line, key) {
      UpperKeyFound(line, key);
    }
  }

  /**
    What becomes of a line: if it begins with a key of the secret, of upper-case letters,
    digits and underscores, the entry stands in its place; if not, it stays.
   */
  lemma LineInOutput(lines: seq<string>, keys: seq<string>, enc: Encoded, i: nat)
    requires (forall k :: k in keys ==> k in enc) && i < |lines|
    ensures var out := Merged(lines, keys, enc);
            && (forall k :: k in enc && BeginsWithKey(lines[i], k) ==> i < |out| && out[i] == k + ("=" + enc[k]))
            && ((forall k :: k in enc ==> !BeginsWithKey(lines[i], k)) ==> if i < |out| then out[i] == lines[i] else lines[i] == "")
  {
    MergeKeepsOtherLines(lines, keys, enc, i);
    forall k
      ensures LineKey(lines[i]) == Some(k) <==> BeginsWithKey(lines[i], k)
    {
      LineKeyIff(lines[i], k);
    }
  }

  /** No line of the file begins with this key. */
  ghost predicate IsMissing(lines: seq<string>, key: string) {
    forall i :: 0 <= i < |lines| ==> !BeginsWithKey(lines[i], key)
  }

  ghost function CountMissing(lines: seq<string>, keys: seq<string>): nat {
    if keys == [] then 0
    else CountMissing(lines, keys[..|keys| - 1]) + if IsMissing(lines, keys[|keys| - 1]) then 1 else 0
  }

  lemma MissingIff(lines: seq<string>, key: string)
    ensures IsMissing(lines, key) <==> !HasLine(lines, key)
  {
    forall i | 0 <= i < |lines|
      ensures LineKey(lines[i]) == Some(key) <==> BeginsWithKey(lines[i], key)
    {
      LineKeyIff(lines[i], key);
    }
  }

  lemma {:induction false} AsManyAsMissing(lines: seq<string>, keys: seq<string>, enc: Encoded)
    requires forall k :: k in keys ==> k in enc
    ensures |NewEntries(lines, keys, enc)| == CountMissing(lines, keys)
  {
    if keys != [] {
      var m := |keys| - 1;
      MissingIff(lines, keys[m]);
      AsManyAsMissing(lines, keys[..m], enc);
    }
  }

  /** The new entries are in the order of the keys, one for each missing key. */
  lemma {:induction false} EntriesInKeyOrder(lines: seq<string>, keys: seq<string>, enc: Encoded, n: nat)
    requires (forall k :: k in keys ==> k in enc) && n < |keys| && IsMissing(lines, keys[n])
    ensures CountMissing(lines, keys[..n]) < |NewEntries(lines, keys, enc)|
    ensures NewEntries(lines, keys, enc)[CountMissing(lines, keys[..n])] == keys[n] + ("=" + enc[keys[n]])
  {
    var m := |keys| - 1;
    AsManyAsMissing(lines, keys[..m], enc);
    if n < m {
      EntriesInKeyOrder(lines, keys[..m], enc, n);
      assert keys[..m][..n] == keys[..n];
    } else {
      MissingIff(lines, keys[n]);
    }
  }

  predicate EndsInText(lines: seq<string>) {
    lines != [] && lines[|lines| - 1] != ""
  }

  lemma {:induction false} LastIsEntry(lines: seq<string>, keys: seq<string>, enc: Encoded)
    requires (forall k :: k in keys ==> k in enc) && NewEntries(lines, keys, enc) != []
    ensures EndsInText(NewEntries(lines, keys, enc))
  {
    if HasLine(lines, keys[|keys| - 1]) {
      LastIsEntry(lines, keys[..|keys| - 1], enc);
    }
  }

  lemma NewEntriesComeLast(lines: seq<string>, keys: seq<string>, enc: Encoded, added: seq<string>)
    requires (forall k :: k in keys ==> k in enc) && added == NewEntries(lines, keys, enc) && EndsInText(added)
    ensures Merged(lines, keys, enc) == MergeAll(lines, enc) + added
  {
    NothingTrimmed(MergeAll(lines, enc), added);
  }

  lemma NothingTrimmed(a: seq<string>, b: seq<string>)
    requires EndsInText(b)
    ensures TrimBlank(a + b) == a + b
  {
    assert (a + b)[|a + b| - 1] == b[|b| - 1];
  }

  lemma AtInSecond(a: seq<string>, b: seq<string>, j: nat, all: seq<string>)
    requires j < |b| && all == a + b
    ensures |all| == |a| + |b| && all[|a| + j] == b[j]
  {}

  lemma AddedInOutput(lines: seq<string>, keys: seq<string>, enc: Encoded, added: seq<string>, j: nat)
    requires (forall k :: k in keys ==> k in enc) && added == NewEntries(lines, keys, enc) && EndsInText(added) && j < |added|
    ensures var out := Merged(lines, keys, enc); |out| == |lines| + |added| && out[|lines| + j] == added[j]
  {
    NewEntriesComeLast(lines, keys, enc, added);
    AtInSecond(MergeAll(lines, enc), added, j, Merged(lines, keys, enc));
  }

  /** A missing key has its entry in the output, behind the file's lines and the missing keys before it. */
  lemma NewEntryInOutput(lines: seq<string>, keys: seq<string>, enc: Encoded, n: nat, at: nat)
    requires (forall k :: k in keys ==> k in enc) && n < |keys| && IsMissing(lines, keys[n])
    requires at == CountMissing(lines, keys[..n])
    ensures var out := Merged(lines, keys, enc);
            && |out| == |lines| + CountMissing(lines, keys) && |lines| + at < |out|
            && out[|lines| + at] == keys[n] + ("=" + enc[keys[n]])
  {
    var added := NewEntries(lines, keys, enc);
    EntriesInKeyOrder(lines, keys, enc, n);
    AsManyAsMissing(lines, keys, enc);
    LastIsEntry(lines, keys, enc);
    AddedInOutput(lines, keys, enc, added, at);
  }

  // ---- The file that was written, read or synced again ----

  ghost predicate OneLineValues(enc: Encoded) {
    forall k :: k in enc ==> OneLine(enc[k])
  }

  lemma {:induction false} NewEntriesAreEntries(lines: seq<string>, keys: seq<string>, enc: Encoded)
    requires forall k :: k in keys ==> k in enc
    ensures forall l :: l in NewEntries(lines, keys, enc) ==>
              exists k :: k in keys && !HasLine(lines, k) && l == EntryLine(k, enc)
    ensures forall k :: k in keys && !HasLine(lines, k) ==> EntryLine(k, enc) in NewEntries(lines, keys, enc)
  {
    if keys != [] {
      var n := |keys| - 1;
      assert keys == keys[..n] + [keys[n]];
      NewEntriesAreEntries(lines, keys[..n], enc);
    }
  }

  /** An output line is an entry, or an input line that no key of the secret matches. */
  lemma OutputLine(lines: seq<string>, keys: seq<string>, enc: Encoded, l: string)
    requires (forall k :: k in keys ==> k in enc) && l in Merged(lines, keys, enc)
    ensures (exists k :: k in enc && l == EntryLine(k, enc)) || (l in lines && !Matches(l, enc))
  {
    var a, b := MergeAll(lines, enc), NewEntries(lines, keys, enc);
    TrimIsPrefix(a + b);
    assert l in a + b;
    if l in a {
      var i :| 0 <= i < |a| && a[i] == l;
      assert l == MergeLine(lines[i], enc);
    } else {
      NewEntriesAreEntries(lines, keys, enc);
    }
  }

  lemma EntryShape(k: string, enc: Encoded)
    requires GoodKeys(enc) && k in enc
    ensures EntryLine(k, enc) != "" && Strip(EntryLine(k, enc)) == EntryLine(k, enc)
    ensures OneLine(enc[k]) ==> OneLine(EntryLine(k, enc))
    ensures IsUpperKey(k) ==> LineKey(EntryLine(k, enc)) == Some(k)
    ensures !IsUpperKey(k) ==> LineKey(EntryLine(k, enc)) == None
  {
    ValidKeyPlain(k);
    var line := EntryLine(k, enc);
    assert line[|line| - 1] == enc[k][|enc[k]| - 1];
    EntryStarts(k, k, enc);
    if IsUpperKey(k) {
      UpperKeyFound(line, k);
    } else if LineKey(line).Some? {
      LineKeyStarts(line);
      var q := LineKey(line).value;
      assert '=' !in q;
      EntryStarts(k, q, enc);
    }
  }

  lemma OutputLinesAreOneLine(lines: seq<string>, keys: seq<string>, enc: Encoded)
    requires GoodKeys(enc) && OneLineValues(enc) && (forall k :: k in keys ==> k in enc)
    requires forall l :: l in lines ==> OneLine(l)
    ensures forall l :: l in Merged(lines, keys, enc) ==> OneLine(l)
  {
    forall l | l in Merged(lines, keys, enc)
      ensures OneLine(l)
    {
      OutputLine(lines, keys, enc, l);
      if k :| k in enc && l == EntryLine(k, enc) {
        EntryShape(k, enc);
      }
    }
  }

  lemma StripKeepsQuotedLine(l: string, key: string)
    requires Starts(l, key) && Quoted(l[|key| + 1..])
    ensures Strip(l) == l
  {
    var v := l[|key| + 1..];
    assert l[|l| - 1] == v[|v| - 1];
  }

  lemma StripKeepsStart(l: string, key: string)
    ensures Starts(Strip(l), key) <==> Starts(l, key)
  {
    if Starts(l, key) {
      assert (key + "=")[|key|] == '=' == l[|key|];
    }
  }

  lemma {:induction false} StripKeepsQuotedValue(lines: seq<string>, key: string)
    requires LastValue(lines, key).Some? && Quoted(LastValue(lines, key).value)
    ensures LastValue(StripAll(lines), key) == LastValue(lines, key)
  {
    var n := |lines| - 1;
    var l := lines[n];
    assert StripAll(lines)[..n] == StripAll(lines[..n]);
    if Starts(l, key) {
      StripKeepsQuotedLine(l, key);
    } else {
      StripKeepsStart(l, key);
      StripKeepsQuotedValue(lines[..n], key);
    }
  }

  lemma SecretIsEncoded(keys: seq<string>, secret: map<string, string>, k: string)
    requires secret.Keys == (set k | k in keys) && Writable(keys, secret) && k in secret
    ensures var enc := EncodeAll(secret);
            && k in enc && IsValidEnvKey(k) && Quoted(enc[k]) && ReadsAs(enc[k], secret[k])
            && (OneLine(secret[k]) ==> OneLine(enc[k]))
  {
    assert k in keys;
    EncodedReadsBack(secret[k]);
  }

  lemma AllSecretsAreEncoded(keys: seq<string>, secret: map<string, string>)
    requires secret.Keys == (set k | k in keys) && Writable(keys, secret)
    requires forall k :: k in secret ==> OneLine(secret[k])
    ensures EncodeAll(secret).Keys == secret.Keys && GoodKeys(EncodeAll(secret)) && OneLineValues(EncodeAll(secret))
  {
    forall k | k in secret
      ensures k in EncodeAll(secret) && IsValidEnvKey(k) && Quoted(EncodeAll(secret)[k]) && OneLine(EncodeAll(secret)[k])
    {
      SecretIsEncoded(keys, secret, k);
    }
  }

  /** The text that is written gives every secret back to both parsers, the last entry of a key winning. */
  lemma SecretsReadBack(lines: seq<string>, keys: seq<string>, secret: map<string, string>, key: string)
    requires secret.Keys == (set k | k in keys) && Writable(keys, secret) && key in keys
    requires forall l :: l in lines ==> OneLine(l)
    requires forall k :: k in secret ==> OneLine(secret[k])
    ensures EncodeAll(secret).Keys == secret.Keys
    ensures var v := LastValue(SplitLines(Unlines(Merged(lines, keys, EncodeAll(secret)))), key);
            v.Some? && ReadsAs(v.value, secret[key])
  {
    var enc := EncodeAll(secret);
    AllSecretsAreEncoded(keys, secret);
    SecretIsEncoded(keys, secret, key);
    WrittenValueIsRead(lines, keys, enc, key);
  }

  lemma WrittenValueIsRead(lines: seq<string>, keys: seq<string>, enc: Encoded, key: string)
    requires GoodKeys(enc) && OneLineValues(enc) && (forall k :: k in keys ==> k in enc) && key in keys
    requires forall l :: l in lines ==> OneLine(l)
    ensures LastValue(SplitLines(Unlines(Merged(lines, keys, enc))), key) == Some(enc[key])
  {
    var out := Merged(lines, keys, enc);
    OutputLinesAreOneLine(lines, keys, enc);
    SplitUnlines(out);
    MergeSetsEverySecret(lines, keys, enc, key);
    StripKeepsQuotedValue(out, key);
    LastValueConcat(StripAll(out), [""], key);
    assert LastValue([""], key) == None by {
      assert [""][..0] == [];
    }
  }

  /** No line that is kept ends in a carriage return of its own. */
  predicate NoStrayReturn(lines: seq<string>, enc: Encoded) {
    forall l :: l in lines ==> Matches(l, enc) || Strip(l) == l
  }

  function Again(lines: seq<string>, keys: seq<string>, enc: Encoded): seq<string>
    requires forall k :: k in keys ==> k in enc
  {
    Merged(SplitLines(Unlines(Merged(lines, keys, enc))), keys, enc)
  }

  // ---- Files that grow ----

  /** Something stands on the line besides carriage returns. */
  predicate Solid(l: string) {
    exists i :: 0 <= i < |l| && l[i] != '\r'
  }

  function Solids(lines: seq<string>): nat {
    if lines == [] then 0 else (if Solid(lines[0]) then 1 else 0) + Solids(lines[1..])
  }

  /** How many lines of the text have something on them. */
  function Weight(text: string): nat {
    Solids(SplitLines(text))
  }

  function TotalWeight(items: seq<string>): nat {
    if items == [] then 0 else Weight(items[0]) + TotalWeight(items[1..])
  }

  lemma SolidCons(c: char, l: string)
    ensures Solid([c] + l) <==> c != '\r' || Solid(l)
  {
    var t := [c] + l;
    assert t[0] == c && forall i :: 0 <= i < |l| ==> t[i + 1] == l[i];
    if Solid(l) {
      var i :| 0 <= i < |l| && l[i] != '\r';
      assert t[i + 1] != '\r';
    }
  }

  lemma SolidsCons(c: char, lines: seq<string>)
    requires lines != []
    ensures Solids([[c] + lines[0]] + lines[1..])
         == Solids(lines) + if c != '\r' && !Solid(lines[0]) then 1 else 0
  {
    SolidCons(c, lines[0]);
    var longer := [[c] + lines[0]] + lines[1..];
    assert longer[1..] == lines[1..];
  }

  lemma SolidsBlank(lines: seq<string>)
    ensures Solids([""] + lines) == Solids(lines)
  {
    assert ([""] + lines)[1..] == lines;
  }

  lemma SplitCons(text: string)
    requires text != "" && text[0] != '\n' && !(|text| >= 2 && text[..2] == "\r\n")
    ensures var rest := SplitLines(text[1..]); SplitLines(text) == [[text[0]] + rest[0]] + rest[1..]
  {}

  /** A line end keeps what stands before it and behind it apart; weights add up. */
  lemma {:induction false} WeightJoin(l: string, rest: string)
    ensures Weight(l + ("\n" + rest)) == Weight(l) + Weight(rest)
    ensures Solid(SplitLines(l + ("\n" + rest))[0]) == Solid(SplitLines(l)[0])
    decreases |l|
  {
    var text := l + ("\n" + rest);
    if l == "" {
      assert text[1..] == rest;
      SolidsBlank(SplitLines(rest));
    } else if l == "\r" {
      assert text[..2] == "\r\n" && text[2..] == rest;
      SolidsBlank(SplitLines(rest));
      assert l[1..] == "" && SplitLines(l) == [['\r'] + ""];
      SolidsCons('\r', [""]);
    } else if l[0] == '\n' {
      assert text[1..] == l[1..] + ("\n" + rest);
      WeightJoin(l[1..], rest);
      SolidsBlank(SplitLines(l[1..]));
      SolidsBlank(SplitLines(text[1..]));
    } else if |l| >= 2 && l[..2] == "\r\n" {
      assert text[..2] == "\r\n" && text[2..] == l[2..] + ("\n" + rest);
      WeightJoin(l[2..], rest);
      SolidsBlank(SplitLines(l[2..]));
      SolidsBlank(SplitLines(text[2..]));
    } else {
      WeightJoinChar(l, rest);
      WeightJoin(l[1..], rest);
    }
  }

  lemma WeightJoinChar(l: string, rest: string)
    requires l != "" && l != "\r" && l[0] != '\n' && !(|l| >= 2 && l[..2] == "\r\n")
    ensures Weight(l[1..] + ("\n" + rest)) == Weight(l[1..]) + Weight(rest)
            && Solid(SplitLines(l[1..] + ("\n" + rest))[0]) == Solid(SplitLines(l[1..])[0]) ==>
              && Weight(l + ("\n" + rest)) == Weight(l) + Weight(rest)
              && Solid(SplitLines(l + ("\n" + rest))[0]) == Solid(SplitLines(l)[0])
  {
    var text := l + ("\n" + rest);
    assert text[0] == l[0] && text[1..] == l[1..] + ("\n" + rest);
    assert !(text[..2] == "\r\n") by {
      assert text[..2][0] == text[0] && text[..2][1] == text[1];
      assert |l| >= 2 ==> l[..2] == text[..2];
      assert |l| == 1 ==> l == [l[0]];
    }
    SplitCons(text);
    SplitCons(l);
    var r, r' := SplitLines(l[1..]), SplitLines(text[1..]);
    SolidsCons(l[0], r);
    SolidsCons(l[0], r');
    SolidCons(l[0], r[0]);
    SolidCons(l[0], r'[0]);
  }

  lemma WeightAlone(l: string)
    requires OneLine(l)
    ensures Weight(l) == if Solid(l) then 1 else 0
  {
    SplitAlone(l);
    assert [l][1..] == [] && Solids([l][1..]) == 0;
    assert Solids([l]) == (if Solid([l][0]) then 1 else 0) + Solids([l][1..]);
  }

  lemma {:induction false} WeightOfLines(lines: seq<string>)
    requires forall l :: l in lines ==> OneLine(l)
    ensures TotalWeight(lines) == Solids(lines)
  {
    if lines != [] {
      WeightAlone(lines[0]);
      WeightOfLines(lines[1..]);
    }
  }

  lemma {:induction false} WeightOfUnlines(items: seq<string>)
    ensures Weight(Unlines(items)) == TotalWeight(items)
  {
    if items == [] {
      SplitAlone("");
    } else {
      WeightJoin(items[0], Unlines(items[1..]));
      WeightOfUnlines(items[1..]);
    }
  }

  lemma {:induction false} TotalConcat(a: seq<string>, b: seq<string>)
    ensures TotalWeight(a + b) == TotalWeight(a) + TotalWeight(b)
  {
    if a == [] {
      assert a + b == b;
    } else {
      assert (a + b)[1..] == a[1..] + b;
      TotalConcat(a[1..], b);
    }
  }

  lemma {:induction false} TotalTrim(lines: seq<string>)
    ensures TotalWeight(TrimBlank(lines)) == TotalWeight(lines)
  {
    if lines != [] && lines[|lines| - 1] == "" {
      var front := lines[..|lines| - 1];
      TotalTrim(front);
      assert lines == front + [""];
      TotalConcat(front, [""]);
      WeightAlone("");
      assert TotalWeight([""]) == 0;
    }
  }

  lemma {:induction false} TotalMember(items: seq<string>, x: string)
    requires x in items
    ensures TotalWeight(items) >= Weight(x)
  {
    if items[0] != x {
      TotalMember(items[1..], x);
    }
  }

  lemma {:induction false} WeightAtLeast(text: string, i: nat)
    requires i < |text| && text[i] != '\r' && text[i] != '\n'
    ensures Weight(text) >= 1
    decreases |text|
  {
    if text[0] == '\n' {
      WeightAtLeast(text[1..], i - 1);
      SolidsBlank(SplitLines(text[1..]));
    } else if |text| >= 2 && text[..2] == "\r\n" {
      assert text[0] == '\r' && text[1] == text[..2][1] == '\n';
      WeightAtLeast(text[2..], i - 2);
      SolidsBlank(SplitLines(text[2..]));
    } else {
      var rest := SplitLines(text[1..]);
      SolidsCons(text[0], rest);
      if i > 0 {
        WeightAtLeast(text[1..], i - 1);
      } else {
        assert Solid(rest[0]) ==> Solids(rest) >= 1;
      }
    }
  }

  /** An entry has something on its first line, and on its last one, which ends in a quote. */
  lemma EntryWeight(k: string, enc: Encoded)
    requires GoodKeys(enc) && k in enc
    ensures Weight(EntryLine(k, enc)) >= if OneLine(enc[k]) then 1 else 2
  {
    var line, e := EntryLine(k, enc), enc[k];
    assert line[|k|] == '=';
    WeightAtLeast(line, |k|);
    if !OneLine(e) {
      var i :| 0 <= i < |e| && e[i] == '\n';
      var a, b := k + ("=" + e[..i]), e[i + 1..];
      assert line == a + ("\n" + b);
      WeightJoin(a, b);
      assert a[|k|] == '=';
      WeightAtLeast(a, |k|);
      assert b[|b| - 1] == e[|e| - 1];
      WeightAtLeast(b, |b| - 1);
    }
  }

  /** The merge takes nothing away, and adds to a line that it replaces by several. */
  lemma {:induction false} MergeWeight(lines: seq<string>, enc: Encoded)
    requires GoodKeys(enc) && forall l :: l in lines ==> OneLine(l)
    ensures TotalWeight(MergeAll(lines, enc)) >= TotalWeight(lines)
    ensures (exists l :: l in lines && Matches(l, enc) && !OneLine(enc[LineKey(l).value])) ==>
              TotalWeight(MergeAll(lines, enc)) > TotalWeight(lines)
  {
    if lines != [] {
      var l := lines[0];
      MergeWeight(lines[1..], enc);
      assert MergeAll(lines, enc)[1..] == MergeAll(lines[1..], enc);
      WeightAlone(l);
      if Matches(l, enc) {
        EntryWeight(LineKey(l).value, enc);
      }
    }
  }

  /**
    With a key that has a lower-case letter, or a value that has a newline, every run leaves
    more written lines than the one before: the first is appended again, the further lines of
    the second are kept as if they were not its own.
   */
  lemma EveryRunGrows(lines: seq<string>, keys: seq<string>, enc: Encoded, key: string)
    requires GoodKeys(enc) && (forall k :: k in keys ==> k in enc)
    requires key in keys && !(IsUpperKey(key) && OneLine(enc[key]))
    ensures Weight(Unlines(Again(lines, keys, enc))) > Weight(Unlines(Merged(lines, keys, enc)))
  {
    var text := Unlines(Merged(lines, keys, enc));
    var cut := SplitLines(text);
    WeightOfLines(cut);
    MergeWeight(cut, enc);
    var a, b := MergeAll(cut, enc), NewEntries(cut, keys, enc);
    TotalConcat(a, b);
    TotalTrim(a + b);
    WeightOfUnlines(Again(lines, keys, enc));
    if HasLine(cut, key) {
      var i :| 0 <= i < |cut| && LineKey(cut[i]) == Some(key);
      LineKeyStarts(cut[i]);
      assert cut[i] in cut && Matches(cut[i], enc);
    } else {
      NewEntriesAreEntries(cut, keys, enc);
      EntryWeight(key, enc);
      TotalMember(b, EntryLine(key, enc));
    }
  }

  // ---- Files that a second run leaves as they are ----

  lemma StripKeepsKey(l: string)
    ensures LineKey(Strip(l)) == LineKey(l)
  {
    if Strip(l) != l {
      UpperPrefixOfStrip(l);
      var n := UpperPrefix(l);
      assert Strip(l)[..n] == l[..n];
      assert n < |l| - 1 ==> Strip(l)[n] == l[n];
    }
  }

  lemma {:induction false} UpperPrefixOfStrip(l: string)
    requires l != "" && l[|l| - 1] == '\r'
    ensures UpperPrefix(l[..|l| - 1]) == UpperPrefix(l) < |l|
  {
    if |l| > 1 && IsUpper(l[0]) {
      assert l[..|l| - 1][1..] == l[1..][..|l| - 2];
      UpperPrefixOfStrip(l[1..]);
    }
  }

  /** An output line is not changed by another merge, its stray carriage return apart. */
  lemma StrippedOutputIsMerged(lines: seq<string>, keys: seq<string>, enc: Encoded, l: string)
    requires GoodKeys(enc) && enc.Keys == set k | k in keys
    requires (forall k :: k in keys ==> IsUpperKey(k)) && l in Merged(lines, keys, enc)
    ensures MergeLine(Strip(l), enc) == Strip(l)
  {
    StripKeepsKey(l);
    OutputLine(lines, keys, enc, l);
    if k :| k in enc && l == EntryLine(k, enc) {
      assert k in keys;
      EntryShape(k, enc);
    }
  }

  lemma {:induction false} NothingToAppend(lines: seq<string>, keys: seq<string>, enc: Encoded)
    requires forall k :: k in keys ==> k in enc && HasLine(lines, k)
    ensures NewEntries(lines, keys, enc) == []
  {
    if keys != [] {
      assert keys[|keys| - 1] in keys;
      NothingToAppend(lines, keys[..|keys| - 1], enc);
    }
  }

  lemma StrippedOutputsAreMerged(lines: seq<string>, keys: seq<string>, enc: Encoded)
    requires GoodKeys(enc) && enc.Keys == set k | k in keys
    requires forall k :: k in keys ==> IsUpperKey(k)
    ensures var cut := StripAll(Merged(lines, keys, enc)) + [""]; MergeAll(cut, enc) == cut
  {
    var out := Merged(lines, keys, enc);
    var cut := StripAll(out) + [""];
    forall i | 0 <= i < |cut|
      ensures MergeLine(cut[i], enc) == cut[i]
    {
      if i < |out| {
        StrippedOutputIsMerged(lines, keys, enc, out[i]);
      }
    }
  }

  /** For keys the merge can find, the second run only drops stray carriage returns. */
  lemma SecondRunStrips(lines: seq<string>, keys: seq<string>, enc: Encoded)
    requires GoodKeys(enc) && OneLineValues(enc) && enc.Keys == set k | k in keys
    requires forall l :: l in lines ==> OneLine(l)
    requires forall k :: k in keys ==> IsUpperKey(k)
    ensures Again(lines, keys, enc) == TrimBlank(StripAll(Merged(lines, keys, enc)))
  {
    var out := Merged(lines, keys, enc);
    OutputLinesAreOneLine(lines, keys, enc);
    SplitUnlines(out);
    var cut := StripAll(out) + [""];
    forall k | k in keys
      ensures HasLine(cut, k)
    {
      KeyIsInOutput(lines, keys, enc, k);
    }
    NothingToAppend(cut, keys, enc);
    StrippedOutputsAreMerged(lines, keys, enc);
    assert MergeAll(cut, enc) + [] == cut;
    assert cut[..|cut| - 1] == StripAll(out);
  }

  lemma KeyIsInOutput(lines: seq<string>, keys: seq<string>, enc: Encoded, key: string)
    requires GoodKeys(enc) && (forall k :: k in keys ==> k in enc) && key in keys && IsUpperKey(key)
    ensures HasLine(StripAll(Merged(lines, keys, enc)) + [""], key)
  {
    var out := Merged(lines, keys, enc);
    MergeSetsEverySecret(lines, keys, enc, key);
    StripKeepsQuotedValue(out, key);
    var i := LastStart(StripAll(out), key);
    UpperKeyFound(StripAll(out)[i], key);
    assert (StripAll(out) + [""])[i] == StripAll(out)[i];
  }

  lemma {:induction false} LastStart(lines: seq<string>, key: string) returns (i: nat)
    requires LastValue(lines, key).Some?
    ensures i < |lines| && Starts(lines[i], key)
  {
    i := |lines| - 1;
    if !Starts(lines[i], key) {
      i := LastStart(lines[..i], key);
    }
  }

  lemma {:induction false} StripShortens(lines: seq<string>)
    ensures |Unlines(StripAll(lines))| <= |Unlines(lines)|
    ensures StripAll(lines) != lines ==> |Unlines(StripAll(lines))| < |Unlines(lines)|
  {
    if lines != [] {
      StripShortens(lines[1..]);
      assert StripAll(lines)[1..] == StripAll(lines[1..]);
      assert lines == [lines[0]] + lines[1..] && StripAll(lines) == [Strip(lines[0])] + StripAll(lines[1..]);
    }
  }

  lemma {:induction false} PrefixIsShorter(a: seq<string>, b: seq<string>)
    requires a <= b
    ensures |Unlines(a)| <= |Unlines(b)|
  {
    if a != [] {
      PrefixIsShorter(a[1..], b[1..]);
    }
  }

  lemma OutputStripped(lines: seq<string>, keys: seq<string>, enc: Encoded)
    requires GoodKeys(enc) && (forall k :: k in keys ==> k in enc)
    ensures NoStrayReturn(lines, enc) <==> StripAll(Merged(lines, keys, enc)) == Merged(lines, keys, enc)
  {
    var out := Merged(lines, keys, enc);
    if NoStrayReturn(lines, enc) {
      forall i | 0 <= i < |out|
        ensures Strip(out[i]) == out[i]
      {
        OutputLine(lines, keys, enc, out[i]);
        if k :| k in enc && out[i] == EntryLine(k, enc) {
          EntryShape(k, enc);
        }
      }
    }
    if StripAll(out) == out {
      forall l | l in lines && !Matches(l, enc)
        ensures Strip(l) == l
      {
        var i :| 0 <= i < |lines| && lines[i] == l;
        MergeKeepsOtherLines(lines, keys, enc, i);
        assert i < |out| ==> Strip(out[i]) == StripAll(out)[i];
      }
    }
  }

  /**
    When a second run changes nothing: exactly if no key has a lower-case letter, no value a
    newline, and no line that is kept ends in a carriage return of its own.
   */
  lemma SecondRunChangesNothingIff(lines: seq<string>, keys: seq<string>, enc: Encoded)
    requires GoodKeys(enc) && enc.Keys == set k | k in keys
    requires forall l :: l in lines ==> OneLine(l)
    ensures Unlines(Again(lines, keys, enc)) == Unlines(Merged(lines, keys, enc))
       <==> (forall k :: k in keys ==> IsUpperKey(k) && OneLine(enc[k])) && NoStrayReturn(lines, enc)
  {
    var out := Merged(lines, keys, enc);
    if key :| key in keys && !(IsUpperKey(key) && OneLine(enc[key])) {
      EveryRunGrows(lines, keys, enc, key);
    } else {
      SecondRunStrips(lines, keys, enc);
      OutputStripped(lines, keys, enc);
      TrimIsPrefix(MergeAll(lines, enc) + NewEntries(lines, keys, enc));
      TrimIsPrefix(out);
      TrimIsPrefix(StripAll(out));
      StripShortens(out);
      PrefixIsShorter(TrimBlank(StripAll(out)), StripAll(out));
    }
  }
}
