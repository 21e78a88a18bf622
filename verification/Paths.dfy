/** Reference paths as text: how `deCycle` writes them, and the pattern and evaluation by which
    `retroCycle` reads them (packages/api/utils/src/cycle/cycle.ts). */
module Paths {
  import opened Wrappers

  /** One step from an object to a member: an array index or a property name. */
  datatype Step = Idx(i: nat) | Name(s: string)

  type Path = seq<Step>

  // ---------------------------------------------------------------- writing

  const DIGITS := "0123456789abcdef"

  function Decimal(n: nat): string {
    if n < 10 then [DIGITS[n]] else Decimal(n / 10) + [DIGITS[n % 10]]
  }

  /** The property a step reads. */
  function Text(step: Step): string {
    match step
    case Idx(i) => Decimal(i)
    case Name(s) => s
  }

  function Texts(path: Path): seq<string> {
    if path == [] then [] else [Text(path[0])] + Texts(path[1..])
  }

  predicate Control(c: char) { c < ' ' }

  /** JSON.stringify of one character. */
  function EscapeChar(c: char): string {
    if c == '"' then "\\\""
    else if c == '\\' then "\\\\"
    else if c == 8 as char then "\\b"
    else if c == 12 as char then "\\f"
    else if c == '\n' then "\\n"
    else if c == '\r' then "\\r"
    else if c == '\t' then "\\t"
    else if Control(c) then "\\u00" + [DIGITS[c as int / 16], DIGITS[c as int % 16]]
    else [c]
  }

  function Escape(s: string): string {
    if s == "" then "" else EscapeChar(s[0]) + Escape(s[1..])
  }

  /** Array steps are written with single quotes, property steps as JSON strings. */
  function RenderStep(step: Step): string {
    match step
    case Idx(i) => "['" + Decimal(i) + "']"
    case Name(s) => "[\"" + Escape(s) + "\"]"
  }

  function RenderSteps(path: Path): string {
    if path == [] then "" else RenderStep(path[0]) + RenderSteps(path[1..])
  }

  function Render(path: Path): string { "$" + RenderSteps(path) }

  // ---------------------------------------------------------------- reading

  /** A text either fails the pattern, passes it but is no program, or names properties from the root. */
  datatype Parsed = NoMatch | Throws | Keys(texts: seq<string>)

  predicate Digit(c: char) { '0' <= c <= '9' }

  predicate Alnum(c: char) { Digit(c) || 'a' <= c <= 'z' || 'A' <= c <= 'Z' }

  function HexValue(c: char): Option<nat> {
    if Digit(c) then Some(c as int - '0' as int)
    else if 'a' <= c <= 'f' then Some(10 + (c as int - 'a' as int))
    else if 'A' <= c <= 'F' then Some(10 + (c as int - 'A' as int))
    else None
  }

  /** The character of a \u escape. Surrogates, which a `char` cannot be, read as U+FFFD. */
  function Unhex(a: char, b: char, c: char, d: char): Option<char> {
    var ha, hb, hc, hd := HexValue(a), HexValue(b), HexValue(c), HexValue(d);
    if ha.None? || hb.None? || hc.None? || hd.None? || ha.value > 15 || hb.value > 15 || hc.value > 15 || hd.value > 15
    then None
    else
      var code := 4096 * ha.value + 256 * hb.value + 16 * hc.value + hd.value;
      if 0xD800 <= code < 0xE000 then Some('\U{FFFD}') else Some(code as char)
  }

  predicate SimpleEscape(c: char) { c in "\\\"/bfnrt" }

  function Unescaped(c: char): char {
    match c
    case 'b' => 8 as char
    case 'f' => 12 as char
    case 'n' => '\n'
    case 'r' => '\r'
    case 't' => '\t'
    case _ => c
  }

  /** What follows an opening quote: whether the pattern's string part matches, the string if it is one,
      and what is left behind the closing quote. */
  datatype Scanned = Bad | Scanned(text: Option<string>, rest: string)

  function Prepend(c: Option<char>, s: Scanned): Scanned {
    match s
    case Bad => Bad
    case Scanned(text, rest) =>
      Scanned(if c.Some? && text.Some? then Some([c.value] + text.value) else None, rest)
  }

  function ScanString(s: string): (r: Scanned)
    ensures r.Scanned? ==> |r.rest| < |s|
  {
    if s == "" then Bad
    else if s[0] == '"' then Scanned(Some(""), s[1..])
    else if s[0] == '\\' then
      if |s| >= 2 && SimpleEscape(s[1]) then Prepend(Some(Unescaped(s[1])), ScanString(s[2..]))
      else if |s| >= 6 && s[1] == 'u' && Alnum(s[2]) && Alnum(s[3]) && Alnum(s[4]) && Alnum(s[5]) then
        Prepend(Unhex(s[2], s[3], s[4], s[5]), ScanString(s[6..]))
      else Bad
    else if Control(s[0]) then Bad
    else Prepend(Some(s[0]), ScanString(s[1..]))
  }

  /** Number of leading digits. */
  function DigitRun(s: string): (n: nat)
    ensures n <= |s|
  {
    if s == "" || !Digit(s[0]) then 0 else 1 + DigitRun(s[1..])
  }

  function Cons(text: Option<string>, p: Parsed): Parsed {
    match p
    case NoMatch => NoMatch
    case Throws => Throws
    case Keys(ts) => if text.Some? then Keys([text.value] + ts) else Throws
  }

  function ParseSteps(s: string): Parsed
    decreases |s|
  {
    if s == "" then Keys([])
    else if |s| < 2 || s[0] != '[' then NoMatch
    else if s[1] == '"' then
      var r := ScanString(s[2..]);
      if r.Bad? || r.rest == "" || r.rest[0] != ']' then NoMatch
      else Cons(r.text, ParseSteps(r.rest[1..]))
    else
      var n := DigitRun(s[1..]);
      if n == 0 || 1 + n >= |s| || s[1 + n] != ']' then NoMatch
      else
        // strict code rejects a number with a leading zero
        var text := if n > 1 && s[1] == '0' then None else Some(s[1..1 + n]);
        Cons(text, ParseSteps(s[2 + n..]))
  }

  /** The pattern test of `retroCycle`, and what evaluating a matching text reads. */
  function Parse(s: string): Parsed {
    if s == "" || s[0] != '$' then NoMatch else ParseSteps(s[1..])
  }

  // ---------------------------------------------------------------- reading what was written

  predicate AllNames(path: Path) { forall k :: 0 <= k < |path| ==> path[k].Name? }

  /** The number a text of digits stands for. */
  function ValueOf(s: string): int
    requires forall c :: c in s ==> Digit(c)
  {
    if s == "" then 0 else 10 * ValueOf(s[..|s|-1]) + (s[|s|-1] as int - '0' as int)
  }

  /** An index is written in decimal, without a leading zero. */
  lemma {:induction false} DecimalReadsBack(n: nat)
    ensures Decimal(n) != "" && (forall c :: c in Decimal(n) ==> Digit(c)) && ValueOf(Decimal(n)) == n
    ensures Decimal(n)[0] == '0' ==> n == 0
  {
    hide Digit, ValueOf;
    DigitIs(n % 10);
    if n < 10 {
      ValueGrows("", DIGITS[n]);
      assert "" + [DIGITS[n]] == Decimal(n);
    } else {
      DecimalReadsBack(n / 10);
      ValueGrows(Decimal(n / 10), DIGITS[n % 10]);
      assert Decimal(n)[0] == Decimal(n / 10)[0];
    }
  }

  lemma DigitIs(n: nat)
    requires n < 10
    ensures Digit(DIGITS[n]) && DIGITS[n] as int - '0' as int == n && (DIGITS[n] == '0' ==> n == 0)
  {
  }

  lemma ValueGrows(s: string, c: char)
    requires Digit(c) && forall x :: x in s ==> Digit(x)
    ensures forall x :: x in s + [c] ==> Digit(x)
    ensures ValueOf("") == 0 && ValueOf(s + [c]) == 10 * ValueOf(s) + (c as int - '0' as int)
  {
    hide Digit;
    assert (s + [c])[..|s|] == s;
  }

  /** Only quotes, backslashes and control characters are escaped, and those with a letter of their own in the
      JSON grammar (section 7 of RFC 8259) by it, all others by their code. */
  lemma EscapesAreShort(c: char)
    ensures |EscapeChar(c)| == 1 <==> c >= ' ' && c !in "\"\\"
    ensures |EscapeChar(c)| == 2 <==> c in "\"\\\n\r\t" || c == 8 as char || c == 12 as char
    ensures |EscapeChar(c)| <= 2 || EscapeChar(c)[..2] == "\\u"
  {
  }

  lemma ScanControl(c: char, rest: string)
    requires Control(c)
    ensures ScanString("\\u00" + [DIGITS[c as int / 16], DIGITS[c as int % 16]] + rest)
            == Prepend(Some(c), ScanString(rest))
  {
    var hi, lo := DIGITS[c as int / 16], DIGITS[c as int % 16];
    var s := "\\u00" + [hi, lo] + rest;
    assert s[..6] == ['\\', 'u', '0', '0', hi, lo] && s[6..] == rest;
    HexDigit(c as int / 16);
    HexDigit(c as int % 16);
    assert Unhex('0', '0', hi, lo) == Some(c);
  }

  lemma HexDigit(n: nat)
    requires n < 16
    ensures HexValue(DIGITS[n]) == Some(n) && Alnum(DIGITS[n])
  {
  }

  lemma ScanEscapedChar(c: char, rest: string)
    ensures ScanString(EscapeChar(c) + rest) == Prepend(Some(c), ScanString(rest))
  {
    hide Unhex, Alnum;
    var e := EscapeChar(c);
    if |e| == 1 {
      assert (e + rest)[0] == c && (e + rest)[1..] == rest;
    } else if |e| == 2 {
      assert (e + rest)[0] == '\\' && (e + rest)[1] == e[1] && (e + rest)[2..] == rest;
      assert SimpleEscape(e[1]) && Unescaped(e[1]) == c;
    } else {
      ScanControl(c, rest);
    }
  }

  lemma {:induction false} ScanEscaped(s: string, rest: string)
    ensures ScanString(Escape(s) + "\"" + rest) == Scanned(Some(s), rest)
  {
    hide EscapeChar, Control, SimpleEscape, Unhex, Unescaped, Alnum;
    var all := Escape(s) + "\"" + rest;
    if s == "" {
      assert all[0] == '"' && all[1..] == rest;
    } else {
      ScanEscaped(s[1..], rest);
      var tail := Escape(s[1..]) + "\"" + rest;
      assert all == EscapeChar(s[0]) + tail;
      ScanEscapedChar(s[0], tail);
      assert s == [s[0]] + s[1..];
    }
  }

  lemma ParseNameStep(s: string, rest: string)
    ensures ParseSteps(RenderStep(Name(s)) + rest) == Cons(Some(s), ParseSteps(rest))
  {
    hide Escape, ScanString, DigitRun;
    var all := RenderStep(Name(s)) + rest;
    assert all == "[\"" + (Escape(s) + "\"" + ("]" + rest));
    assert all[2..] == Escape(s) + "\"" + ("]" + rest);
    ScanEscaped(s, "]" + rest);
    assert ("]" + rest)[1..] == rest;
  }

  lemma ParseIdxStep(i: nat, rest: string)
    ensures ParseSteps(RenderStep(Idx(i)) + rest) == NoMatch
  {
  }

  /** A written path reads back as itself exactly when it has no array step; with one, the pattern rejects it. */
  lemma {:induction false} ReadBack(path: Path)
    ensures ParseSteps(RenderSteps(path)) == if AllNames(path) then Keys(Texts(path)) else NoMatch
  {
    if path != [] {
      var rest := path[1..];
      ReadBack(rest);
      match path[0]
      case Name(s) =>
        ParseNameStep(s, RenderSteps(rest));
        assert AllNames(path) <==> AllNames(rest) by {
          assert forall k :: 0 < k < |path| ==> path[k] == rest[k-1];
          if AllNames(rest) {
            forall k | 0 <= k < |path| ensures path[k].Name? { if k > 0 { assert rest[k-1].Name?; } }
          }
        }
      case Idx(i) =>
        ParseIdxStep(i, RenderSteps(rest));
    }
  }

  lemma ParseRender(path: Path)
    ensures Parse(Render(path)) == if AllNames(path) then Keys(Texts(path)) else NoMatch
  {
    ReadBack(path);
    assert Render(path)[1..] == RenderSteps(path);
  }
}
