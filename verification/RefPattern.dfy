/** The pattern by which `retroCycle` recognises references (packages/api/utils/src/cycle/cycle.ts), as a
    grammar: which texts match it, and what a matching one reads. */
module RefPattern {
  import opened Wrappers
  import opened Paths

  const QUOTE := '"'
  const BACKSLASH := '\\'
  const CAPITAL_DIGITS := "0123456789ABCDEF"

  /** A piece of a quoted name: a character as it is, one escaped by a letter, or one given by its code. */
  datatype Piece = Plain(c: char) | Escaped(c: char) | Coded(a: char, b: char, c: char, d: char)

  predicate PieceOk(p: Piece) {
    match p
    case Plain(c) => c >= ' ' && c != '"' && c != '\\'
    case Escaped(c) => c in ['\\', '"', '/', 'b', 'f', 'n', 'r', 't']
    case Coded(a, b, c, d) => Alnum(a) && Alnum(b) && Alnum(c) && Alnum(d)
  }

  function PieceText(p: Piece): string {
    match p
    case Plain(c) => [c]
    case Escaped(c) => ['\\', c]
    case Coded(a, b, c, d) => ['\\', 'u', a, b, c, d]
  }

  function PieceChar(p: Piece): Option<char> {
    match p
    case Plain(c) => Some(c)
    case Escaped(c) => Some(Unescaped(c))
    case Coded(a, b, c, d) => Unhex(a, b, c, d)
  }

  function PiecesText(ps: seq<Piece>): string { if ps == [] then "" else PieceText(ps[0]) + PiecesText(ps[1..]) }

  /** What the quoted name says; none when the program does not parse. */
  function PiecesName(ps: seq<Piece>): Option<string> {
    if ps == [] then Some("")
    else if PieceChar(ps[0]).Some? && PiecesName(ps[1..]).Some?
    then Some([PieceChar(ps[0]).value] + PiecesName(ps[1..]).value) else None
  }

  /** One step of a reference. */
  datatype Bracket = Quoted(pieces: seq<Piece>) | Number(digits: string)

  predicate BracketOk(b: Bracket) {
    match b
    case Quoted(ps) => forall p :: p in ps ==> PieceOk(p)
    case Number(ds) => ds != "" && forall c :: c in ds ==> c in "0123456789"
  }

  function BracketText(b: Bracket): string {
    match b
    case Quoted(ps) => "[\"" + PiecesText(ps) + "\"]"
    case Number(ds) => "[" + ds + "]"
  }

  /** A number with a leading zero is no program. */
  function BracketName(b: Bracket): Option<string> {
    match b
    case Quoted(ps) => PiecesName(ps)
    case Number(ds) => if |ds| > 1 && ds[0] == '0' then None else Some(ds)
  }

  function BracketsText(bs: seq<Bracket>): string {
    if bs == [] then "" else BracketText(bs[0]) + BracketsText(bs[1..])
  }

  /** The names a reference reads one after the other, from the root on; it throws if one is no program. */
  function Meaning(bs: seq<Bracket>): Parsed {
    if bs == [] then Keys([])
    else if BracketName(bs[0]).None? || Meaning(bs[1..]).Throws? then Throws
    else match Meaning(bs[1..])
      case Keys(names) => Keys([BracketName(bs[0]).value] + names)
      case _ => NoMatch
  }

  // ---------------------------------------------------------------- single characters

  /** The letters and digits the pattern knows are those of ASCII. */
  lemma AlnumIs(c: char)
    ensures Alnum(c) <==> 48 <= c as int <= 57 || 65 <= c as int <= 90 || 97 <= c as int <= 122
  {
  }

  /** A hexadecimal digit, small or capital, has the value of its place. */
  lemma HexValueIs(c: char, n: nat)
    requires n < 16
    ensures HexValue(c) == Some(n) <==> c == DIGITS[n] || c == CAPITAL_DIGITS[n]
    ensures HexValue(c).Some? ==> HexValue(c).value < 16
  {
  }

  /** Four hexadecimal digits are the code of a character; codes of surrogates, which are no characters, give
      the replacement character; four characters that are not all such digits are no program. */
  lemma CodeIsRead(a: char, b: char, c: char, d: char)
    ensures var (ha, hb, hc, hd) := (HexValue(a), HexValue(b), HexValue(c), HexValue(d));
            if ha.None? || hb.None? || hc.None? || hd.None? then Unhex(a, b, c, d) == None
            else
              var code := ((ha.value * 16 + hb.value) * 16 + hc.value) * 16 + hd.value;
              Unhex(a, b, c, d).Some?
              && Unhex(a, b, c, d).value as int == if 0xD800 <= code <= 0xDFFF then 0xFFFD else code
  {
    HexValueIs(a, 0);
    HexValueIs(b, 0);
    HexValueIs(c, 0);
    HexValueIs(d, 0);
  }

  // ---------------------------------------------------------------- texts of the pattern are read

  lemma ScanPiece(p: Piece, rest: string)
    requires PieceOk(p)
    ensures ScanString(PieceText(p) + rest) == Prepend(PieceChar(p), ScanString(rest))
  {
    hide Unhex, Unescaped, Alnum;
    var s := PieceText(p) + rest;
    match p
    case Plain(c) =>
      assert s[0] == c && s[1..] == rest;
    case Escaped(c) =>
      assert s[0] == '\\' && s[1] == c && s[2..] == rest;
    case Coded(a, b, c, d) =>
      assert s[..6] == ['\\', 'u', a, b, c, d] && s[6..] == rest;
  }

  lemma {:induction false} ScanPieces(ps: seq<Piece>, rest: string)
    requires forall p :: p in ps ==> PieceOk(p)
    ensures ScanString(PiecesText(ps) + "\"" + rest) == Scanned(PiecesName(ps), rest)
  {
    hide PieceOk, PieceText, PieceChar;
    var s := PiecesText(ps) + "\"" + rest;
    if ps == [] {
      assert s[0] == '"' && s[1..] == rest;
    } else {
      var tail := PiecesText(ps[1..]) + "\"" + rest;
      assert s == PieceText(ps[0]) + tail;
      ScanPieces(ps[1..], rest);
      ScanPiece(ps[0], tail);
    }
  }

  lemma {:induction false} DigitRunIs(ds: string, rest: string)
    requires forall c :: c in ds ==> c in "0123456789"
    ensures DigitRun(ds + "]" + rest) == |ds|
  {
    var s := ds + "]" + rest;
    if ds != "" {
      assert ds[0] in ds && forall c :: c in ds[1..] ==> c in ds;
      DigitRunIs(ds[1..], rest);
      assert s[1..] == ds[1..] + "]" + rest;
    }
  }

  lemma QuotedIsRead(ps: seq<Piece>, rest: string)
    requires BracketOk(Quoted(ps))
    ensures ParseSteps(BracketText(Quoted(ps)) + rest) == Cons(PiecesName(ps), ParseSteps(rest))
  {
    hide PieceOk, ScanString, DigitRun, PiecesText, PiecesName, Digit;
    var s := BracketText(Quoted(ps)) + rest;
    assert s[2..] == PiecesText(ps) + "\"" + ("]" + rest);
    ScanPieces(ps, "]" + rest);
    assert ("]" + rest)[1..] == rest;
  }

  lemma NumberIsRead(ds: string, rest: string)
    requires BracketOk(Number(ds))
    ensures ParseSteps(BracketText(Number(ds)) + rest) == Cons(BracketName(Number(ds)), ParseSteps(rest))
  {
    hide ScanString, DigitRun, Digit, PieceOk, PiecesText, PiecesName;
    var s := BracketText(Number(ds)) + rest;
    assert s[1..] == ds + "]" + rest;
    DigitRunIs(ds, rest);
    assert ds[0] in ds && s[1] == ds[0];
    assert s[1..1+|ds|] == ds && s[2+|ds|..] == rest;
  }

  lemma BracketIsRead(b: Bracket, rest: string)
    requires BracketOk(b)
    ensures ParseSteps(BracketText(b) + rest) == Cons(BracketName(b), ParseSteps(rest))
  {
    hide ParseSteps, BracketText, BracketOk;
    match b
    case Quoted(ps) => QuotedIsRead(ps, rest);
    case Number(ds) => NumberIsRead(ds, rest);
  }

  lemma {:induction false} BracketsAreRead(bs: seq<Bracket>)
    requires forall b :: b in bs ==> BracketOk(b)
    ensures ParseSteps(BracketsText(bs)) == Meaning(bs) && !Meaning(bs).NoMatch?
  {
    hide BracketOk, BracketText, BracketName;
    if bs != [] {
      BracketsAreRead(bs[1..]);
      BracketIsRead(bs[0], BracketsText(bs[1..]));
    }
  }

  // ---------------------------------------------------------------- nothing else is

  lemma FirstIsPlain(s: string)
    requires ScanString(s).Scanned? && s[0] != QUOTE && s[0] != BACKSLASH
    ensures PieceOk(Plain(s[0])) && s == [s[0]] + s[1..]
    ensures ScanString(s[1..]).Scanned? && ScanString(s[1..]).rest == ScanString(s).rest
  {
  }

  lemma SomethingIsEscaped(s: string)
    requires ScanString(s).Scanned? && s[0] == BACKSLASH
    ensures |s| >= 2
  {
  }

  lemma SimpleIsOk(c: char)
    requires SimpleEscape(c)
    ensures PieceOk(Escaped(c))
  {
  }

  lemma FirstIsEscaped(s: string)
    requires ScanString(s).Scanned? && |s| >= 2 && s[0] == BACKSLASH && SimpleEscape(s[1])
    ensures ScanString(s[2..]).Scanned? && ScanString(s[2..]).rest == ScanString(s).rest
  {
    hide Unhex, Unescaped, Alnum, SimpleEscape;
  }

  lemma FirstIsCoded(s: string)
    requires ScanString(s).Scanned? && s[0] == BACKSLASH && |s| >= 2 && !SimpleEscape(s[1])
    ensures |s| >= 6 && s[1] == 'u' && PieceOk(Coded(s[2], s[3], s[4], s[5]))
    ensures ScanString(s[6..]).Scanned? && ScanString(s[6..]).rest == ScanString(s).rest
  {
    hide Unhex, Unescaped, Alnum, SimpleEscape;
  }

  /** The first piece of a quoted name that the scan accepts, and what is left of the text. */
  lemma FirstPiece(s: string) returns (p: Piece, tail: string)
    requires ScanString(s).Scanned? && s[0] != QUOTE
    ensures PieceOk(p) && s == PieceText(p) + tail && |tail| < |s|
    ensures ScanString(tail).Scanned? && ScanString(tail).rest == ScanString(s).rest
  {
    hide ScanString, PieceOk, SimpleEscape;
    if s[0] != '\\' {
      FirstIsPlain(s);
      p, tail := Plain(s[0]), s[1..];
    } else {
      SomethingIsEscaped(s);
      if SimpleEscape(s[1]) {
        SimpleIsOk(s[1]);
        FirstIsEscaped(s);
        p, tail := Escaped(s[1]), s[2..];
        assert s[..2] == ['\\', s[1]];
      } else {
        FirstIsCoded(s);
        p, tail := Coded(s[2], s[3], s[4], s[5]), s[6..];
        assert s[..6] == ['\\', 'u', s[2], s[3], s[4], s[5]];
      }
    }
  }

  lemma {:induction false} ScannedIsPieces(s: string) returns (ps: seq<Piece>)
    requires ScanString(s).Scanned?
    ensures (forall p :: p in ps ==> PieceOk(p)) && s == PiecesText(ps) + "\"" + ScanString(s).rest
    decreases |s|
  {
    hide PieceOk, PieceText, ScanString;
    NotEmpty(s);
    if s[0] == '"' {
      ps := [];
      EndsAtQuote(s);
    } else {
      var p, tail := FirstPiece(s);
      var more := ScannedIsPieces(tail);
      ps := [p] + more;
      assert PiecesText(ps) == PieceText(p) + PiecesText(more);
    }
  }

  lemma NotEmpty(s: string)
    requires ScanString(s).Scanned?
    ensures s != ""
  {
  }

  lemma EndsAtQuote(s: string)
    requires s != "" && s[0] == QUOTE
    ensures s == "\"" + ScanString(s).rest
  {
  }

  lemma {:induction false} RunIsDigits(s: string)
    ensures forall c :: c in s[..DigitRun(s)] ==> c in "0123456789"
  {
    if s != "" && Digit(s[0]) {
      RunIsDigits(s[1..]);
      assert s[..DigitRun(s)] == [s[0]] + s[1..][..DigitRun(s[1..])];
      assert "0123456789"[s[0] as int - '0' as int] == s[0];
    }
  }

  /** The first step of a text that the pattern accepts, and what is left of the text. */
  lemma FirstBracket(s: string) returns (b: Bracket, tail: string)
    requires !ParseSteps(s).NoMatch? && s != ""
    ensures BracketOk(b) && s == BracketText(b) + tail && |tail| < |s| && !ParseSteps(tail).NoMatch?
  {
    hide ParseSteps;
    Opened(s);
    if s[1] == '"' {
      b, tail := FirstIsQuoted(s);
    } else {
      b, tail := FirstIsNumber(s);
    }
  }

  lemma Opened(s: string)
    requires !ParseSteps(s).NoMatch? && s != ""
    ensures |s| >= 2 && s[0] == '['
  {
  }

  lemma FirstIsQuoted(s: string) returns (b: Bracket, tail: string)
    requires !ParseSteps(s).NoMatch? && |s| >= 2 && s[0] == '[' && s[1] == QUOTE
    ensures BracketOk(b) && s == BracketText(b) + tail && |tail| < |s| && !ParseSteps(tail).NoMatch?
  {
    hide PieceOk, ScanString, DigitRun, PiecesText;
    var r := ScanString(s[2..]);
    var ps := ScannedIsPieces(s[2..]);
    b, tail := Quoted(ps), r.rest[1..];
    assert s == ['[', '"'] + s[2..] && r.rest == "]" + tail;
  }

  lemma FirstIsNumber(s: string) returns (b: Bracket, tail: string)
    requires !ParseSteps(s).NoMatch? && |s| >= 2 && s[0] == '[' && s[1] != QUOTE
    ensures BracketOk(b) && s == BracketText(b) + tail && |tail| < |s| && !ParseSteps(tail).NoMatch?
  {
    hide PieceOk, ScanString, DigitRun, PiecesText;
    var n := DigitRun(s[1..]);
    RunIsDigits(s[1..]);
    b, tail := Number(s[1..1+n]), s[2+n..];
    assert s[1..][..n] == s[1..1+n];
    assert s == "[" + s[1..1+n] + "]" + tail;
  }

  lemma {:induction false} ReadIsBrackets(s: string) returns (bs: seq<Bracket>)
    requires !ParseSteps(s).NoMatch?
    ensures (forall b :: b in bs ==> BracketOk(b)) && s == BracketsText(bs)
    decreases |s|
  {
    hide BracketOk, BracketText, ParseSteps;
    bs := [];
    if s != "" {
      var b, tail := FirstBracket(s);
      var more := ReadIsBrackets(tail);
      bs := [b] + more;
    }
  }

  /** Every text of the pattern is taken for a reference, and means what its brackets say. */
  lemma PatternIsRead(bs: seq<Bracket>)
    requires forall b :: b in bs ==> BracketOk(b)
    ensures Parse("$" + BracketsText(bs)) == Meaning(bs) && !Meaning(bs).NoMatch?
  {
    BracketsAreRead(bs);
    assert ("$" + BracketsText(bs))[1..] == BracketsText(bs);
  }

  /** And no other text is. */
  lemma OnlyThePatternIsRead(s: string) returns (bs: seq<Bracket>)
    requires !Parse(s).NoMatch?
    ensures (forall b :: b in bs ==> BracketOk(b)) && s == "$" + BracketsText(bs)
  {
    bs := ReadIsBrackets(s[1..]);
    assert s == "$" + s[1..];
  }
}
