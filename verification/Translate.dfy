/**
  Translation of messages with values in them. A source template such as
  "Tenant '{0}' not found" is compiled to an anchored pattern with one lazy group per
  placeholder; the values it captures are filled into the target template.
 */
module Translate {
  import opened Common

  // ---- Templates ----

  /** A template cut at its placeholders: `lits` has one element more than `holes`, which hold digits. */
  datatype Parts = Parts(lits: seq<string>, holes: seq<string>)

  predicate IsDigit(c: char) {
    '0' <= c <= '9'
  }

  function DigitsPrefix(s: string): (n: nat)
    ensures n <= |s| && (forall i :: 0 <= i < n ==> IsDigit(s[i])) && (n < |s| ==> !IsDigit(s[n]))
  {
    if s != "" && IsDigit(s[0]) then 1 + DigitsPrefix(s[1..]) else 0
  }

  /** The length of the placeholder the text begins with, or 0. */
  function HoleAt(s: string): (n: nat)
    ensures n <= |s| && (n > 0 ==> n >= 3)
  {
    if s == "" || s[0] != '{' then 0
    else
      var d := DigitsPrefix(s[1..]);
      if d > 0 && d + 1 < |s| && s[d + 1] == '}' then d + 2 else 0
  }

  /** `text.split(/\{(\d+)\}/)`. */
  function Split(text: string): (p: Parts)
    ensures |p.lits| == |p.holes| + 1
    decreases |text|
  {
    if text == "" then Parts([""], [])
    else if HoleAt(text) > 0 then
      var p := Split(text[HoleAt(text)..]);
      Parts([""] + p.lits, [text[1..HoleAt(text) - 1]] + p.holes)
    else
      var p := Split(text[1..]);
      Parts([[text[0]] + p.lits[0]] + p.lits[1..], p.holes)
  }

  /** The literals with the given texts between them. */
  function Weave(lits: seq<string>, between: seq<string>): string
    requires |lits| == |between| + 1
    decreases |lits|
  {
    if between == [] then lits[0] else lits[0] + (between[0] + Weave(lits[1..], between[1..]))
  }

  function Brace(holes: seq<string>): (r: seq<string>)
    ensures |r| == |holes| && forall i :: 0 <= i < |r| ==> r[i] == "{" + (holes[i] + "}")
  {
    seq(|holes|, i requires 0 <= i < |holes| => "{" + (holes[i] + "}"))
  }

  lemma HoleText(text: string)
    requires HoleAt(text) > 0
    ensures "{" + (text[1..HoleAt(text) - 1] + "}") == text[..HoleAt(text)]
  {
    var n := HoleAt(text);
    assert text[1..][n - 2] == text[n - 1];
    assert text[..n] == [text[0]] + (text[1..n - 1] + [text[n - 1]]);
  }

  /** The pieces of a cut template put together again. */
  function Rejoined(text: string): string {
    Weave(Split(text).lits, Brace(Split(text).holes))
  }

  lemma RejoinedHole(text: string)
    requires HoleAt(text) > 0
    ensures Rejoined(text) == text[..HoleAt(text)] + Rejoined(text[HoleAt(text)..])
  {
    var p, q := Split(text[HoleAt(text)..]), Split(text);
    HoleText(text);
    assert q.lits[0] == "" && q.lits[1..] == p.lits && Brace(q.holes)[1..] == Brace(p.holes);
  }

  lemma Regroup(c: char, a: string, rest: string)
    ensures ([c] + a) + rest == [c] + (a + rest)
  {}

  lemma WeaveFront(c: char, lits: seq<string>, between: seq<string>)
    requires |lits| == |between| + 1
    ensures Weave([[c] + lits[0]] + lits[1..], between) == [c] + Weave(lits, between)
  {
    var first := [c] + lits[0];
    var longer := [first] + lits[1..];
    assert longer[0] == first;
    if between != [] {
      assert longer[1..] == lits[1..];
      var rest := between[0] + Weave(lits[1..], between[1..]);
      assert Weave(longer, between) == first + rest;
      assert Weave(lits, between) == lits[0] + rest;
      Regroup(c, lits[0], rest);
    }
  }

  lemma RejoinedChar(text: string)
    requires text != "" && HoleAt(text) == 0
    ensures Rejoined(text) == [text[0]] + Rejoined(text[1..])
  {
    var p := Split(text[1..]);
    WeaveFront(text[0], p.lits, Brace(p.holes));
  }

  lemma RejoinedEmpty()
    ensures Rejoined("") == ""
  {
    assert Brace([]) == [];
  }

  /** Cutting a template loses nothing. */
  lemma {:induction false} SplitIsLossless(text: string)
    ensures Rejoined(text) == text
    decreases |text|
  {
    var n := HoleAt(text);
    if text == "" {
      RejoinedEmpty();
    } else if n > 0 {
      RejoinedHole(text);
      SplitIsLossless(text[n..]);
    } else {
      RejoinedChar(text);
      SplitIsLossless(text[1..]);
    }
  }

  // ---- Cutting finds the placeholders, and nothing else ----

  /** Text without a placeholder in it. */
  predicate Plain(l: string) {
    forall i :: 0 <= i < |l| ==> HoleAt(l[i..]) == 0
  }

  predicate Numeric(h: string) {
    h != "" && forall i :: 0 <= i < |h| ==> IsDigit(h[i])
  }

  predicate WellCut(p: Parts) {
    |p.lits| == |p.holes| + 1 && (forall l :: l in p.lits ==> Plain(l)) && (forall h :: h in p.holes ==> Numeric(h))
  }

  /** A placeholder shows its own end, so more text behind it changes nothing. */
  lemma HoleInPrefix(a: string, b: string)
    requires a <= b && HoleAt(a) > 0
    ensures HoleAt(b) == HoleAt(a)
  {
    var d := DigitsPrefix(a[1..]);
    DigitsEnd(b[1..], d);
    assert a[1..][d] == b[1..][d];
  }

  lemma {:induction false} DigitsEnd(s: string, d: nat)
    requires d < |s| && (forall i :: 0 <= i < d ==> IsDigit(s[i])) && !IsDigit(s[d])
    ensures DigitsPrefix(s) == d
  {
    if d > 0 {
      DigitsEnd(s[1..], d - 1);
    }
  }

  lemma WeaveStarts(lits: seq<string>, between: seq<string>)
    requires |lits| == |between| + 1
    ensures lits[0] <= Weave(lits, between)
  {}

  lemma PlainCons(c: char, l: string)
    requires Plain(l) && HoleAt([c] + l) == 0
    ensures Plain([c] + l)
  {
    forall i | 0 <= i < |l| + 1
      ensures HoleAt(([c] + l)[i..]) == 0
    {
      assert ([c] + l)[i..] == if i == 0 then [c] + l else l[i - 1..];
    }
  }

  /** No placeholder is left in a literal, and every placeholder is a number. */
  lemma {:induction false} SplitIsWellCut(text: string)
    ensures WellCut(Split(text))
    decreases |text|
  {
    var n := HoleAt(text);
    if text == "" {
    } else if n > 0 {
      SplitIsWellCut(text[n..]);
      var p := Split(text[n..]);
      assert Numeric(text[1..n - 1]) by {
        assert text[1..n - 1] == text[1..][..n - 2];
      }
    } else {
      SplitIsWellCut(text[1..]);
      var p, q := Split(text[1..]), Split(text);
      SplitIsLossless(text);
      WeaveStarts(q.lits, Brace(q.holes));
      if HoleAt(q.lits[0]) > 0 {
        HoleInPrefix(q.lits[0], text);
      }
      assert p.lits[0] in p.lits && forall l :: l in p.lits[1..] ==> l in p.lits;
      PlainCons(text[0], p.lits[0]);
    }
  }

  lemma HoleStandsFirst(h: string, rest: string)
    requires Numeric(h)
    ensures var s := "{" + (h + "}") + rest;
            HoleAt(s) == |h| + 2 && s[|h| + 2..] == rest && s[1..|h| + 1] == h
  {
    var s := "{" + (h + "}") + rest;
    assert forall i :: 0 <= i < |h| ==> s[1..][i] == h[i];
    assert s[1..][|h|] == '}';
    DigitsEnd(s[1..], |h|);
  }

  lemma DigitIff(c: char)
    ensures IsDigit(c) <==> c in "0123456789"
  {
    if IsDigit(c) {
      assert c == "0123456789"[c as nat - '0' as nat];
    }
  }

  /** One or more of the ten digits in braces. */
  ghost predicate BeginsWithHole(s: string, h: string) {
    h != "" && (forall i :: 0 <= i < |h| ==> h[i] in "0123456789") && "{" + (h + "}") <= s
  }

  lemma HoleIsFound(s: string, h: string)
    requires BeginsWithHole(s, h)
    ensures HoleAt(s) == |h| + 2
  {
    forall i | 0 <= i < |h|
      ensures IsDigit(h[i])
    {
      DigitIff(h[i]);
    }
    var rest := s[|h| + 2..];
    assert s == "{" + (h + "}") + rest;
    HoleStandsFirst(h, rest);
  }

  lemma FoundHole(s: string)
    requires HoleAt(s) > 0
    ensures BeginsWithHole(s, s[1..HoleAt(s) - 1])
  {
    HoleText(s);
    var h := s[1..HoleAt(s) - 1];
    forall i | 0 <= i < |h|
      ensures h[i] in "0123456789"
    {
      assert h[i] == s[1..][i];
      DigitIff(h[i]);
    }
  }

  /** A placeholder is one or more of the ten digits in braces. */
  lemma HoleIffDigitsInBraces(s: string)
    ensures HoleAt(s) > 0 <==> exists h :: BeginsWithHole(s, h)
    ensures forall h :: BeginsWithHole(s, h) ==> HoleAt(s) == |h| + 2
  {
    if HoleAt(s) > 0 {
      FoundHole(s);
    }
    forall h | BeginsWithHole(s, h)
      ensures HoleAt(s) == |h| + 2
    {
      HoleIsFound(s, h);
    }
  }

  lemma NoBraceInside(s: string, i: nat)
    requires 0 < i < HoleAt(s)
    ensures s[i] != '{'
  {
    assert s[1..][i - 1] == s[i];
  }

  /** A placeholder cannot begin in a plain literal and end in the placeholder behind it. */
  lemma NoHoleAcross(l: string, tail: string)
    requires l != "" && Plain(l) && (tail == "" || tail[0] == '{')
    ensures HoleAt(l + tail) == 0
  {
    var s := l + tail;
    var n := HoleAt(s);
    if n > |l| {
      NoBraceInside(s, |l|);
    } else if n > 0 {
      HoleInShorter(s, l);
      assert l[0..] == l;
    }
  }

  lemma HoleInShorter(s: string, l: string)
    requires l <= s && 0 < HoleAt(s) <= |l|
    ensures HoleAt(l) == HoleAt(s)
  {
    var d := HoleAt(s) - 2;
    assert forall i :: 0 <= i < d + 1 ==> l[1..][i] == s[1..][i];
    DigitsEnd(l[1..], d);
  }

  lemma PlainTail(l: string)
    requires Plain(l) && l != ""
    ensures Plain(l[1..])
  {
    forall i | 0 <= i < |l| - 1
      ensures HoleAt(l[1..][i..]) == 0
    {
      assert l[1..][i..] == l[i + 1..];
    }
  }

  lemma WovenTail(lits: seq<string>, holes: seq<string>)
    requires |lits| == |holes| + 1 && lits[0] != "" && Plain(lits[0])
    ensures Weave(lits, Brace(holes)) != "" && Weave(lits, Brace(holes))[0] == lits[0][0]
    ensures HoleAt(Weave(lits, Brace(holes))) == 0
  {
    var text := Weave(lits, Brace(holes));
    var tail := if holes == [] then "" else Brace(holes)[0] + Weave(lits[1..], Brace(holes)[1..]);
    assert text == lits[0] + tail;
    NoHoleAcross(lits[0], tail);
  }

  ghost predicate CutsBack(p: Parts)
    requires |p.lits| == |p.holes| + 1
  {
    Split(Weave(p.lits, Brace(p.holes))) == p
  }

  lemma WeaveCons(a: string, b: string, lits: seq<string>, between: seq<string>)
    requires |lits| == |between| + 1
    ensures Weave([a] + lits, [b] + between) == a + (b + Weave(lits, between))
  {
    assert ([a] + lits)[1..] == lits && ([b] + between)[1..] == between;
  }

  lemma WeaveFirstHole(lits: seq<string>, h: string, holes: seq<string>)
    requires |lits| == |holes| + 1
    ensures Weave([""] + lits, Brace([h] + holes)) == "{" + (h + "}") + Weave(lits, Brace(holes))
  {
    assert Brace([h] + holes) == ["{" + (h + "}")] + Brace(holes);
    WeaveCons("", "{" + (h + "}"), lits, Brace(holes));
  }

  lemma CutsBackAtHole(h: string, p: Parts)
    requires Numeric(h) && |p.lits| == |p.holes| + 1 && CutsBack(p)
    ensures CutsBack(Parts([""] + p.lits, [h] + p.holes))
  {
    WeaveFirstHole(p.lits, h, p.holes);
    HoleStandsFirst(h, Weave(p.lits, Brace(p.holes)));
  }

  lemma CutsBackAtChar(c: char, p: Parts)
    requires |p.lits| == |p.holes| + 1 && CutsBack(p) && Plain([c] + p.lits[0])
    ensures CutsBack(Parts([[c] + p.lits[0]] + p.lits[1..], p.holes))
  {
    var q := Parts([[c] + p.lits[0]] + p.lits[1..], p.holes);
    WovenTail(q.lits, q.holes);
    WeaveFront(c, p.lits, Brace(p.holes));
    var text := Weave(q.lits, Brace(q.holes));
    assert text[1..] == Weave(p.lits, Brace(p.holes));
  }

  lemma DropChar(p: Parts) returns (q: Parts)
    requires WellCut(p) && p.lits[0] != ""
    ensures WellCut(q) && |q.lits| == |p.lits| && |q.lits[0]| < |p.lits[0]|
    ensures p == Parts([[p.lits[0][0]] + q.lits[0]] + q.lits[1..], q.holes)
  {
    var l := p.lits[0];
    PlainTail(l);
    q := Parts([l[1..]] + p.lits[1..], p.holes);
    assert q.lits[0] == l[1..] && q.lits[1..] == p.lits[1..];
    assert [l[0]] + l[1..] == l && [l] + p.lits[1..] == p.lits;
  }

  lemma DropHole(p: Parts) returns (q: Parts)
    requires WellCut(p) && p.lits[0] == "" && p.holes != []
    ensures WellCut(q) && |q.lits| < |p.lits| && p == Parts([""] + q.lits, [p.holes[0]] + q.holes)
  {
    q := Parts(p.lits[1..], p.holes[1..]);
  }

  /**
    Cutting undoes putting together: a template of plain literals and numeric placeholders
    is cut into just these. With the two lemmas above, `Split` is the one way to cut.
   */
  lemma {:induction false} SplitOfWoven(p: Parts)
    requires WellCut(p)
    ensures Split(Weave(p.lits, Brace(p.holes))) == p
    decreases |p.lits|, |p.lits[0]|
  {
    if p.lits[0] != "" {
      var q := DropChar(p);
      SplitOfWoven(q);
      CutsBackAtChar(p.lits[0][0], q);
    } else if p.holes != [] {
      var q := DropHole(p);
      SplitOfWoven(q);
      CutsBackAtHole(p.holes[0], q);
    }
  }

  function Number(digits: string): nat {
    if digits == "" then 0
    else 10 * Number(digits[..|digits| - 1])
         + if IsDigit(digits[|digits| - 1]) then digits[|digits| - 1] as nat - '0' as nat else 0
  }

  /** The decimal digits of a number. */
  function Decimal(n: nat): (r: string)
    ensures r != "" && forall i :: 0 <= i < |r| ==> IsDigit(r[i])
  {
    (if n < 10 then "" else Decimal(n / 10)) + [('0' as nat + n % 10) as char]
  }

  lemma {:induction false} NumberReadsDecimal(n: nat)
    ensures Number(Decimal(n)) == n
  {
    var r := Decimal(n);
    var front := if n < 10 then "" else Decimal(n / 10);
    assert r[..|r| - 1] == front;
    if n >= 10 {
      NumberReadsDecimal(n / 10);
    }
  }

  /** Zeros in front make no difference. */
  lemma {:induction false} NumberSkipsZeros(h: string)
    ensures Number("0" + h) == Number(h)
  {
    var z := "0" + h;
    if h == "" {
      assert z[..0] == "";
    } else {
      NumberSkipsZeros(h[..|h| - 1]);
      assert z[..|z| - 1] == "0" + h[..|h| - 1];
    }
  }

  type Values = map<nat, string>

  function Value(values: Values, n: nat): string {
    if n in values then values[n] else ""
  }

  function ValuesFor(holes: seq<string>, values: Values): (r: seq<string>)
    ensures |r| == |holes| && forall i :: 0 <= i < |r| ==> r[i] == Value(values, Number(holes[i]))
  {
    seq(|holes|, i requires 0 <= i < |holes| => Value(values, Number(holes[i])))
  }

  /** `text.replace(/\{(\d+)\}/g, ...)`: every placeholder replaced by its value, or by nothing. */
  function Fill(text: string, values: Values): string {
    Weave(Split(text).lits, ValuesFor(Split(text).holes, values))
  }

  // ---- The lazy matcher ----

  /**
    The pattern `^lits[0](.+?)lits[1]...$` against `msg`: the literal has to stand here, then
    the group is tried with one character, two, and so on, until the rest matches.
   */
  function Match(lits: seq<string>, msg: string): (r: Option<seq<string>>)
    requires lits != []
    ensures r.Some? ==> |r.value| == |lits| - 1
    decreases |lits|, 0
  {
    if !(lits[0] <= msg) then None
    else if |lits| == 1 then (if msg == lits[0] then Some([]) else None)
    else TryGroup(lits[1..], msg[|lits[0]|..], 1)
  }

  function TryGroup(lits: seq<string>, rest: string, k: nat): (r: Option<seq<string>>)
    requires lits != [] && k >= 1
    ensures r.Some? ==> |r.value| == |lits|
    decreases |lits|, |rest| + 1 - k
  {
    if k > |rest| then None
    else match Match(lits, rest[k..])
      case Some(vs) => Some([rest[..k]] + vs)
      case None => TryGroup(lits, rest, k + 1)
  }

  /** The message is the literals with these non-empty values between them. */
  ghost predicate IsSplit(lits: seq<string>, vs: seq<string>, msg: string) {
    |lits| == |vs| + 1 && (forall v :: v in vs ==> v != "") && msg == Weave(lits, vs)
  }

  /** `us` is shorter than `vs` at the first place where the two differ. */
  ghost predicate ShorterFirst(us: seq<string>, vs: seq<string>)
    decreases |us|
  {
    us != [] && vs != [] && (|us[0]| < |vs[0]| || (us[0] == vs[0] && ShorterFirst(us[1..], vs[1..])))
  }

  lemma SplitTail(lits: seq<string>, vs: seq<string>, msg: string)
    requires IsSplit(lits, vs, msg) && vs != []
    ensures lits[0] <= msg
    ensures var rest := msg[|lits[0]|..];
            && 1 <= |vs[0]| <= |rest| && rest[..|vs[0]|] == vs[0]
            && IsSplit(lits[1..], vs[1..], rest[|vs[0]|..])
  {
    assert vs[0] in vs && forall v :: v in vs[1..] ==> v in vs;
    var w := Weave(lits[1..], vs[1..]);
    var rest := msg[|lits[0]|..];
    assert rest == vs[0] + w;
    assert rest[|vs[0]|..] == w;
  }

  lemma SplitCons(lit: string, k: nat, lits: seq<string>, vs: seq<string>, msg: string)
    requires lits != [] && lit <= msg && 1 <= k <= |msg| - |lit|
    requires IsSplit(lits, vs, msg[|lit|..][k..])
    ensures IsSplit([lit] + lits, [msg[|lit|..][..k]] + vs, msg)
  {
    var rest := msg[|lit|..];
    assert ([lit] + lits)[1..] == lits && ([rest[..k]] + vs)[1..] == vs;
    assert msg == lit + rest && rest == rest[..k] + rest[k..];
  }

  /** What the matcher returns is a split of the message. */
  lemma {:induction false} MatchIsSplit(lits: seq<string>, msg: string)
    requires lits != [] && Match(lits, msg).Some?
    ensures IsSplit(lits, Match(lits, msg).value, msg)
    decreases |lits|, 0
  {
    if |lits| > 1 {
      var rest := msg[|lits[0]|..];
      GroupIsSplit(lits[1..], rest, 1);
      var vs := Match(lits, msg).value;
      SplitCons(lits[0], |vs[0]|, lits[1..], vs[1..], msg);
      assert [lits[0]] + lits[1..] == lits && [rest[..|vs[0]|]] + vs[1..] == vs;
    }
  }

  lemma {:induction false} GroupIsSplit(lits: seq<string>, rest: string, k: nat)
    requires lits != [] && k >= 1 && TryGroup(lits, rest, k).Some?
    ensures var vs := TryGroup(lits, rest, k).value;
            && k <= |vs[0]| <= |rest| && vs[0] == rest[..|vs[0]|]
            && IsSplit(lits, vs[1..], rest[|vs[0]|..])
    decreases |lits|, |rest| + 1 - k
  {
    if Match(lits, rest[k..]).Some? {
      MatchIsSplit(lits, rest[k..]);
    } else {
      GroupIsSplit(lits, rest, k + 1);
    }
  }

  /** If the message splits at all, the matcher succeeds, with the split whose values are shortest first. */
  lemma {:induction false} MatchIsLeast(lits: seq<string>, msg: string, ws: seq<string>)
    requires lits != [] && IsSplit(lits, ws, msg)
    ensures Match(lits, msg).Some?
    ensures Match(lits, msg).value == ws || ShorterFirst(Match(lits, msg).value, ws)
    decreases |lits|, 0
  {
    if |lits| > 1 {
      SplitTail(lits, ws, msg);
      GroupIsLeast(lits[1..], msg[|lits[0]|..], 1, ws);
    }
  }

  lemma {:induction false} GroupIsLeast(lits: seq<string>, rest: string, k: nat, ws: seq<string>)
    requires lits != [] && ws != [] && 1 <= k <= |ws[0]| <= |rest| && rest[..|ws[0]|] == ws[0]
    requires IsSplit(lits, ws[1..], rest[|ws[0]|..])
    ensures TryGroup(lits, rest, k).Some?
    ensures TryGroup(lits, rest, k).value == ws || ShorterFirst(TryGroup(lits, rest, k).value, ws)
    decreases |lits|, |rest| + 1 - k
  {
    if k == |ws[0]| {
      MatchIsLeast(lits, rest[k..], ws[1..]);
      assert ws == [ws[0]] + ws[1..];
    } else if Match(lits, rest[k..]).None? {
      GroupIsLeast(lits, rest, k + 1, ws);
    }
  }

  lemma {:induction false} ShorterFirstIsStrict(us: seq<string>, vs: seq<string>)
    requires ShorterFirst(us, vs)
    ensures us != vs && !ShorterFirst(vs, us)
  {
    if us[0] == vs[0] {
      ShorterFirstIsStrict(us[1..], vs[1..]);
    }
  }

  /** The matcher finds exactly the least split: it gives `ws` back if no other split is shorter first. */
  lemma MatchRecoversIff(lits: seq<string>, ws: seq<string>)
    requires |lits| == |ws| + 1 && forall v :: v in ws ==> v != ""
    ensures Match(lits, Weave(lits, ws)) == Some(ws)
       <==> forall us :: IsSplit(lits, us, Weave(lits, ws)) ==> !ShorterFirst(us, ws)
  {
    var msg := Weave(lits, ws);
    MatchIsLeast(lits, msg, ws);
    var m := Match(lits, msg).value;
    MatchIsSplit(lits, msg);
    if m == ws {
      forall us | IsSplit(lits, us, msg)
        ensures !ShorterFirst(us, ws)
      {
        MatchIsLeast(lits, msg, us);
        if ShorterFirst(us, ws) {
          ShorterFirstIsStrict(us, ws);
        }
      }
    }
  }

  /** A match exists exactly if the message splits. */
  lemma MatchesIffSplits(lits: seq<string>, msg: string)
    requires lits != []
    ensures Match(lits, msg).Some? <==> exists vs :: IsSplit(lits, vs, msg)
  {
    if Match(lits, msg).Some? {
      MatchIsSplit(lits, msg);
    }
    if vs :| IsSplit(lits, vs, msg) {
      MatchIsLeast(lits, msg, vs);
    }
  }

  lemma CancelEnds(a: string, u: string, v: string, c: string)
    requires a + (u + c) == a + (v + c)
    ensures u == v
  {
    assert u + c == (a + (u + c))[|a|..] && v + c == (a + (v + c))[|a|..];
    assert u == (u + c)[..|u|] && v == (v + c)[..|v|];
  }

  lemma WeaveOne(lits: seq<string>, v: string)
    requires |lits| == 2
    ensures Weave(lits, [v]) == lits[0] + (v + lits[1])
  {
    assert [v][1..] == [] && Weave(lits[1..], []) == lits[1];
  }

  /** With one placeholder every non-empty value comes back. */
  lemma OneValueComesBack(lits: seq<string>, v: string)
    requires |lits| == 2 && v != ""
    ensures Match(lits, Weave(lits, [v])) == Some([v])
  {
    var msg := Weave(lits, [v]);
    MatchIsLeast(lits, msg, [v]);
    var us := Match(lits, msg).value;
    MatchIsSplit(lits, msg);
    assert us == [us[0]];
    WeaveOne(lits, v);
    WeaveOne(lits, us[0]);
    CancelEnds(lits[0], us[0], v, lits[1]);
  }

  /** The separator stands in the text earlier than behind the first value. */
  ghost predicate SeparatorOccursEarlier(x: string, sep: string, y: string) {
    exists k :: 1 <= k < |x| && sep <= (x + (sep + y))[k..]
  }

  lemma WeaveTwo(lits: seq<string>, x: string, y: string)
    requires |lits| == 3
    ensures Weave(lits, [x, y]) == lits[0] + ((x + (lits[1] + y)) + lits[2])
  {
    assert [x, y][1..] == [y];
    assert Weave(lits[1..], [y]) == lits[1] + (y + lits[2]);
  }

  lemma ShorterPair(u0: string, u1: string, x: string, y: string)
    ensures ShorterFirst([u0, u1], [x, y]) <==> |u0| < |x| || (u0 == x && |u1| < |y|)
  {
    assert [u0, u1][1..] == [u1] && [x, y][1..] == [y];
    assert [u1][1..] == [] && [y][1..] == [];
    assert ShorterFirst([u1], [y]) <==> |u1| < |y|;
  }

  lemma Recut(body: string, k: nat, sep: string)
    requires k <= |body| && sep <= body[k..]
    ensures body == body[..k] + (sep + body[k..][|sep|..])
  {}

  lemma PairIsSplit(lits: seq<string>, u0: string, u1: string, body: string)
    requires |lits| == 3 && u0 != "" && u1 != "" && body == u0 + (lits[1] + u1)
    ensures IsSplit(lits, [u0, u1], lits[0] + (body + lits[2]))
  {
    WeaveTwo(lits, u0, u1);
  }

  lemma CutEarlier(lits: seq<string>, body: string, x: string, y: string, k: nat) returns (us: seq<string>)
    requires |lits| == 3 && y != "" && 1 <= k < |x| && |body| == |x| + |lits[1]| + |y| && lits[1] <= body[k..]
    ensures IsSplit(lits, us, lits[0] + (body + lits[2])) && ShorterFirst(us, [x, y])
  {
    var u0, u1 := body[..k], body[k..][|lits[1]|..];
    Recut(body, k, lits[1]);
    PairIsSplit(lits, u0, u1, body);
    ShorterPair(u0, u1, x, y);
    us := [u0, u1];
  }

  lemma SeparatorShowsEarlierSplit(lits: seq<string>, x: string, y: string)
    requires |lits| == 3 && y != "" && SeparatorOccursEarlier(x, lits[1], y)
    ensures exists us :: IsSplit(lits, us, Weave(lits, [x, y])) && ShorterFirst(us, [x, y])
  {
    var body := x + (lits[1] + y);
    var k :| 1 <= k < |x| && lits[1] <= body[k..];
    var us := CutEarlier(lits, body, x, y, k);
    WeaveTwo(lits, x, y);
  }

  lemma EarlierSplitShowsSeparator(lits: seq<string>, us: seq<string>, x: string, y: string)
    requires |lits| == 3 && IsSplit(lits, us, Weave(lits, [x, y])) && ShorterFirst(us, [x, y])
    ensures SeparatorOccursEarlier(x, lits[1], y)
  {
    assert us == [us[0], us[1]];
    WeaveTwo(lits, x, y);
    WeaveTwo(lits, us[0], us[1]);
    var body, body' := x + (lits[1] + y), us[0] + (lits[1] + us[1]);
    CancelEnds(lits[0], body, body', lits[2]);
    var k := |us[0]|;
    ShorterPair(us[0], us[1], x, y);
    assert |body| == |body'|;
    assert body[k..] == lits[1] + us[1];
    assert us[0] in us;
  }

  /** With two placeholders both values come back exactly if the separator does not occur earlier. */
  lemma TwoValuesComeBackIff(lits: seq<string>, x: string, y: string)
    requires |lits| == 3 && x != "" && y != ""
    ensures Match(lits, Weave(lits, [x, y])) == Some([x, y]) <==> !SeparatorOccursEarlier(x, lits[1], y)
  {
    MatchRecoversIff(lits, [x, y]);
    if SeparatorOccursEarlier(x, lits[1], y) {
      SeparatorShowsEarlierSplit(lits, x, y);
    } else {
      forall us | IsSplit(lits, us, Weave(lits, [x, y]))
        ensures !ShorterFirst(us, [x, y])
      {
        if ShorterFirst(us, [x, y]) {
          EarlierSplitShowsSeparator(lits, us, x, y);
        }
      }
    }
  }

  // ---- Translating ----

  datatype Locale = Id | En

  datatype Template = Template(source: string, target: string)

  datatype CompiledTemplate = CompiledTemplate(lits: seq<string>, order: seq<nat>, target: string)

  const MAX_TEMPLATE_MATCH_LENGTH := 600

  function NumbersOf(holes: seq<string>): (r: seq<nat>)
    ensures |r| == |holes| && forall i :: 0 <= i < |r| ==> r[i] == Number(holes[i])
  {
    seq(|holes|, i requires 0 <= i < |holes| => Number(holes[i]))
  }

  function Compiled(t: Template): CompiledTemplate {
    CompiledTemplate(Split(t.source).lits, NumbersOf(Split(t.source).holes), t.target)
  }

  /** Group by group, a later value of the same number replacing an earlier one. */
  function Bind(order: seq<nat>, vs: seq<string>): Values
    requires |order| == |vs|
  {
    if order == [] then map[] else Bind(order[..|order| - 1], vs[..|vs| - 1])[order[|order| - 1] := vs[|vs| - 1]]
  }

  /** The translation by one template, if its pattern matches. */
  function ByTemplate(t: Template, msg: string): Option<string> {
    match Match(Split(t.source).lits, msg)
    case Some(vs) => Some(Fill(t.target, Bind(NumbersOf(Split(t.source).holes), vs)))
    case None => None
  }

  method CompileTemplate(t: Template) returns (c: CompiledTemplate)
    ensures c == Compiled(t)
  {
    var parts := Split(t.source);
    var order: seq<nat> := [];
    for index := 0 to |parts.holes|
      invariant order == NumbersOf(parts.holes)[..index]
    {
      order := order + [Number(parts.holes[index])];
    }
    c := CompiledTemplate(parts.lits, order, t.target);
  }

  /** The templates are tried in the order of the catalogue. */
  function FirstTranslation(templates: seq<Template>, msg: string): Option<string> {
    if templates == [] then None
    else if ByTemplate(templates[0], msg).Some? then ByTemplate(templates[0], msg)
    else FirstTranslation(templates[1..], msg)
  }

  ghost predicate NoneBefore(templates: seq<Template>, n: nat, msg: string)
    requires n <= |templates|
  {
    forall i :: 0 <= i < n ==> ByTemplate(templates[i], msg).None?
  }

  /** Source language as it is; exact entry first; then the first template that matches; else the message. */
  function Translation(catalog: map<string, string>, templates: seq<Template>, msg: string, locale: Locale): string {
    if locale.Id? then msg
    else if msg in catalog then catalog[msg]
    else if |msg| > MAX_TEMPLATE_MATCH_LENGTH then msg
    else FirstTranslation(templates, msg).GetOr(msg)
  }

  // ---- What a translation is, without matcher or tables ----

  /** The message is the template with non-empty values in its placeholders. */
  ghost predicate Fits(t: Template, msg: string) {
    exists vs :: IsSplit(Split(t.source).lits, vs, msg)
  }

  ghost predicate IsLeastSplit(lits: seq<string>, vs: seq<string>, msg: string) {
    IsSplit(lits, vs, msg) && forall us :: IsSplit(lits, us, msg) ==> !ShorterFirst(us, vs)
  }

  ghost predicate IsLastAt(holes: seq<string>, n: nat, i: int) {
    0 <= i < |holes| && Number(holes[i]) == n && forall k :: i < k < |holes| ==> Number(holes[k]) != n
  }

  /** The value of the last placeholder with this number, or nothing if there is none. */
  ghost predicate IsLast(holes: seq<string>, vs: seq<string>, n: nat, w: string)
    requires |vs| == |holes|
  {
    && (forall i :: IsLastAt(holes, n, i) ==> w == vs[i])
    && ((forall i :: 0 <= i < |holes| ==> Number(holes[i]) != n) ==> w == "")
  }

  /** The target with the values that the shortest-first split of the message has for its placeholders. */
  ghost predicate Renders(t: Template, msg: string, r: string) {
    var p, q := Split(t.source), Split(t.target);
    exists vs, ws ::
      && IsLeastSplit(p.lits, vs, msg) && |ws| == |q.holes| && r == Weave(q.lits, ws)
      && forall j :: 0 <= j < |ws| ==> IsLast(p.holes, vs, Number(q.holes[j]), ws[j])
  }

  ghost predicate IsFirstFit(templates: seq<Template>, i: int, msg: string) {
    0 <= i < |templates| && Fits(templates[i], msg) && forall j :: 0 <= j < i ==> !Fits(templates[j], msg)
  }

  lemma {:induction false} BoundIsLast(holes: seq<string>, vs: seq<string>, n: nat)
    requires |holes| == |vs|
    ensures IsLast(holes, vs, n, Value(Bind(NumbersOf(holes), vs), n))
  {
    if holes != [] {
      var m := |holes| - 1;
      assert NumbersOf(holes)[..m] == NumbersOf(holes[..m]);
      BoundIsLast(holes[..m], vs[..m], n);
      if Number(holes[m]) != n {
        forall i | IsLastAt(holes, n, i)
          ensures IsLastAt(holes[..m], n, i)
        {}
      }
    }
  }

  /** One template translates exactly the messages that fit it, into what it renders. */
  lemma ByTemplateRenders(t: Template, msg: string)
    ensures ByTemplate(t, msg).Some? <==> Fits(t, msg)
    ensures ByTemplate(t, msg).Some? ==> Renders(t, msg, ByTemplate(t, msg).value)
  {
    var p, q := Split(t.source), Split(t.target);
    MatchesIffSplits(p.lits, msg);
    if Match(p.lits, msg).Some? {
      var vs := Match(p.lits, msg).value;
      MatchIsSplit(p.lits, msg);
      MatchRecoversIff(p.lits, vs);
      var bound := Bind(NumbersOf(p.holes), vs);
      var ws := ValuesFor(q.holes, bound);
      forall j | 0 <= j < |ws|
        ensures IsLast(p.holes, vs, Number(q.holes[j]), ws[j])
      {
        BoundIsLast(p.holes, vs, Number(q.holes[j]));
      }
      assert IsLeastSplit(p.lits, vs, msg);
    }
  }

  lemma FirstFitDecides(templates: seq<Template>, i: int, msg: string)
    requires IsFirstFit(templates, i, msg)
    ensures FirstTranslation(templates, msg) == ByTemplate(templates[i], msg) && ByTemplate(templates[i], msg).Some?
  {
    forall j | 0 <= j <= i
      ensures ByTemplate(templates[j], msg).Some? <==> Fits(templates[j], msg)
    {
      ByTemplateRenders(templates[j], msg);
    }
    FirstMatchDecides(templates, msg);
    assert Decides(templates, i, msg);
  }

  lemma NoFitNoTranslation(templates: seq<Template>, msg: string)
    requires forall i :: 0 <= i < |templates| ==> !Fits(templates[i], msg)
    ensures FirstTranslation(templates, msg).None?
  {
    FirstMatchDecides(templates, msg);
    if i :| 0 <= i < |templates| && Decides(templates, i, msg) {
      ByTemplateRenders(templates[i], msg);
    }
  }

  /**
    The source language as it is. Otherwise an exact entry is taken, whatever its length and
    the templates; a longer message stays; so does one that fits no template; and else the
    first template that fits renders it.
   */
  lemma TranslationIs(catalog: map<string, string>, templates: seq<Template>, msg: string)
    ensures Translation(catalog, templates, msg, Id) == msg
    ensures var r := Translation(catalog, templates, msg, En);
            && (msg in catalog ==> r == catalog[msg])
            && (msg !in catalog && |msg| > 600 ==> r == msg)
            && (msg !in catalog && (forall i :: 0 <= i < |templates| ==> !Fits(templates[i], msg)) ==> r == msg)
            && (forall i :: msg !in catalog && |msg| <= 600 && IsFirstFit(templates, i, msg) ==> Renders(templates[i], msg, r))
  {
    if forall i :: 0 <= i < |templates| ==> !Fits(templates[i], msg) {
      NoFitNoTranslation(templates, msg);
    }
    forall i | msg !in catalog && |msg| <= 600 && IsFirstFit(templates, i, msg)
      ensures Renders(templates[i], msg, Translation(catalog, templates, msg, En))
    {
      FirstFitDecides(templates, i, msg);
      ByTemplateRenders(templates[i], msg);
    }
  }

  method TranslateMessage(catalog: map<string, string>, templates: seq<Template>, compiled: seq<CompiledTemplate>,
                          msg: string, locale: Locale) returns (r: string)
    requires |compiled| == |templates| && forall i :: 0 <= i < |compiled| ==> compiled[i] == Compiled(templates[i])
    ensures r == Translation(catalog, templates, msg, locale)
    ensures locale.Id? ==> r == msg
    ensures locale.En? && msg in catalog ==> r == catalog[msg]
    ensures locale.En? && msg !in catalog && |msg| > 600 ==> r == msg
    ensures locale.En? && msg !in catalog && (forall i :: 0 <= i < |templates| ==> !Fits(templates[i], msg)) ==> r == msg
    ensures forall i :: locale.En? && msg !in catalog && |msg| <= 600 && IsFirstFit(templates, i, msg) ==> Renders(templates[i], msg, r)
  {
    TranslationIs(catalog, templates, msg);
    if locale.Id? {
      return msg;
    }
    if msg in catalog {
      return catalog[msg];
    }
    if |msg| > MAX_TEMPLATE_MATCH_LENGTH {
      return msg;
    }
    for n := 0 to |compiled|
      invariant FirstTranslation(templates, msg) == FirstTranslation(templates[n..], msg)
    {
      assert templates[n..][1..] == templates[n + 1..];
      var template := compiled[n];
      var match_ := Match(template.lits, msg);
      if match_.Some? {
        var values: Values := map[];
        for index := 0 to |template.order|
          invariant values == Bind(template.order[..index], match_.value[..index])
        {
          values := values[template.order[index] := match_.value[index]];
          assert template.order[..index + 1][..index] == template.order[..index];
          assert match_.value[..index + 1][..index] == match_.value[..index];
        }
        assert template.order[..|template.order|] == template.order;
        assert match_.value[..|match_.value|] == match_.value;
        r := Fill(template.target, values);
        assert ByTemplate(templates[n], msg) == Some(r);
        return;
      }
    }
    return msg;
  }

  // ---- Values are carried across ----

  predicate NonEmptyFor(holes: seq<string>, values: Values) {
    forall i :: 0 <= i < |holes| ==> Value(values, Number(holes[i])) != ""
  }

  predicate UsesOnly(target: string, source: string) {
    forall h :: h in Split(target).holes ==> Number(h) in NumbersOf(Split(source).holes)
  }

  lemma {:induction false} BindAgrees(order: seq<nat>, vs: seq<string>, values: Values)
    requires |order| == |vs| && forall i :: 0 <= i < |order| ==> vs[i] == Value(values, order[i])
    ensures forall n :: n in Bind(order, vs) <==> n in order
    ensures forall n :: n in order ==> Bind(order, vs)[n] == Value(values, n)
  {
    if order != [] {
      var m := |order| - 1;
      BindAgrees(order[..m], vs[..m], values);
      assert order == order[..m] + [order[m]];
    }
  }

  /** The values of a filled source template are recovered from the message. */
  ghost predicate Recovered(source: string, values: Values) {
    var p := Split(source);
    Match(p.lits, Fill(source, values)) == Some(ValuesFor(p.holes, values))
  }

  /** If they are, translating the filled source gives the target filled with the same values. */
  lemma TranslationCarriesValues(t: Template, values: Values)
    requires UsesOnly(t.target, t.source) && Recovered(t.source, values)
    ensures ByTemplate(t, Fill(t.source, values)) == Some(Fill(t.target, values))
  {
    var order, vs := NumbersOf(Split(t.source).holes), ValuesFor(Split(t.source).holes, values);
    BindAgrees(order, vs, values);
    var holes := Split(t.target).holes;
    forall i | 0 <= i < |holes|
      ensures ValuesFor(holes, Bind(order, vs))[i] == ValuesFor(holes, values)[i]
    {
      assert holes[i] in holes;
    }
    assert ValuesFor(holes, Bind(order, vs)) == ValuesFor(holes, values);
  }

  /** One placeholder: for every non-empty value. */
  lemma OnePlaceholderTranslates(t: Template, values: Values)
    requires UsesOnly(t.target, t.source) && |Split(t.source).holes| == 1
    requires NonEmptyFor(Split(t.source).holes, values)
    ensures ByTemplate(t, Fill(t.source, values)) == Some(Fill(t.target, values))
  {
    var p := Split(t.source);
    var vs := ValuesFor(p.holes, values);
    assert vs == [vs[0]];
    OneValueComesBack(p.lits, vs[0]);
    TranslationCarriesValues(t, values);
  }

  /** Two placeholders: exactly when the separator does not occur earlier are both values recovered. */
  lemma TwoPlaceholdersTranslate(t: Template, values: Values)
    requires UsesOnly(t.target, t.source) && |Split(t.source).holes| == 2
    requires NonEmptyFor(Split(t.source).holes, values)
    ensures var p := Split(t.source); var vs := ValuesFor(p.holes, values);
            && (Recovered(t.source, values) <==> !SeparatorOccursEarlier(vs[0], p.lits[1], vs[1]))
            && (!SeparatorOccursEarlier(vs[0], p.lits[1], vs[1]) ==>
                  ByTemplate(t, Fill(t.source, values)) == Some(Fill(t.target, values)))
  {
    var p := Split(t.source);
    var vs := ValuesFor(p.holes, values);
    assert vs == [vs[0], vs[1]];
    TwoValuesComeBackIff(p.lits, vs[0], vs[1]);
    if Recovered(t.source, values) {
      TranslationCarriesValues(t, values);
    }
  }

  /** The template at `i` matches and none before it does. */
  ghost predicate Decides(templates: seq<Template>, i: nat, msg: string)
    requires i < |templates|
  {
    NoneBefore(templates, i, msg) && ByTemplate(templates[i], msg).Some?
  }

  /** There is a translation exactly if some template decides, one does at most, and it gives the translation. */
  lemma {:induction false} FirstMatchDecides(templates: seq<Template>, msg: string)
    ensures FirstTranslation(templates, msg).Some? <==> exists i :: 0 <= i < |templates| && Decides(templates, i, msg)
    ensures forall i :: 0 <= i < |templates| && Decides(templates, i, msg) ==>
              FirstTranslation(templates, msg) == ByTemplate(templates[i], msg)
    ensures forall i, j :: 0 <= i < |templates| && 0 <= j < |templates| && Decides(templates, i, msg) && Decides(templates, j, msg) ==> i == j
  {
    if templates != [] {
      FirstMatchDecides(templates[1..], msg);
      if ByTemplate(templates[0], msg).Some? {
        assert Decides(templates, 0, msg);
      } else {
        forall i | 0 <= i < |templates| - 1
          ensures Decides(templates, i + 1, msg) <==> Decides(templates[1..], i, msg)
        {
          DecidesInRest(templates, i, msg);
        }
        if FirstTranslation(templates, msg).Some? {
          var i :| 0 <= i < |templates[1..]| && Decides(templates[1..], i, msg);
          assert Decides(templates, i + 1, msg);
        }
        forall i | 0 <= i < |templates| && Decides(templates, i, msg)
          ensures i > 0 && Decides(templates[1..], i - 1, msg) && templates[i] == templates[1..][i - 1]
        {
          DecidesInRest(templates, i - 1, msg);
        }
      }
    }
  }

  lemma DecidesInRest(templates: seq<Template>, i: nat, msg: string)
    requires i + 1 < |templates| && ByTemplate(templates[0], msg).None?
    ensures Decides(templates, i + 1, msg) <==> Decides(templates[1..], i, msg)
  {
    var rest := templates[1..];
    if NoneBefore(rest, i, msg) {
      forall j | 0 <= j < i + 1
        ensures ByTemplate(templates[j], msg).None?
      {
        assert j > 0 ==> templates[j] == rest[j - 1];
      }
    }
    if NoneBefore(templates, i + 1, msg) {
      forall j | 0 <= j < i
        ensures ByTemplate(rest[j], msg).None?
      {
        assert rest[j] == templates[j + 1];
      }
    }
  }

  /**
    A message made from a source template is translated to the target template with the same
    values, if it is no exact entry, is not too long, no earlier template matches it, and the
    values can be told apart.
   */
  lemma FilledMessageTranslates(catalog: map<string, string>, templates: seq<Template>, i: nat, values: Values)
    requires i < |templates| && NoneBefore(templates, i, Fill(templates[i].source, values))
    requires UsesOnly(templates[i].target, templates[i].source) && Recovered(templates[i].source, values)
    requires Fill(templates[i].source, values) !in catalog
    requires |Fill(templates[i].source, values)| <= MAX_TEMPLATE_MATCH_LENGTH
    ensures Translation(catalog, templates, Fill(templates[i].source, values), En) == Fill(templates[i].target, values)
    ensures Translation(catalog, templates, Fill(templates[i].source, values), Id) == Fill(templates[i].source, values)
  {
    var msg := Fill(templates[i].source, values);
    TranslationCarriesValues(templates[i], values);
    FirstMatchDecides(templates, msg);
    assert Decides(templates, i, msg);
  }
}
