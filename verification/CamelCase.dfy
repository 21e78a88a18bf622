/** `preserveCamelCase`: a scan that inserts into the string it scans
    (packages/api/utils/src/camelCase/camelCase.ts). */
module CamelCase {

  /** What the scan asks about a character: the two Unicode classes, and whether the locale's case
      conversions leave it as it is. */
  datatype Classes = Classes(
    uppercase: char -> bool, lowercase: char -> bool, lowerFixed: char -> bool, upperFixed: char -> bool)
  {
    /** No character is in both classes, and space and dash have no case. */
    ghost predicate Valid() {
      && (forall c :: !(uppercase(c) && lowercase(c)))
      && (forall c :: c in " -" ==> !uppercase(c) && !lowercase(c) && lowerFixed(c) && upperFixed(c))
    }

    predicate IsLower(c: char) { lowerFixed(c) && !upperFixed(c) }

    predicate IsUpper(c: char) { upperFixed(c) && !lowerFixed(c) }
  }

  // ---------------------------------------------------------------- what it means

  /** A word starts at an upper-case letter behind a lower-case one. */
  predicate AfterLower(cs: Classes, s: string, i: nat) {
    1 <= i < |s| && cs.IsLower(s[i-1]) && cs.uppercase(s[i])
  }

  /** A word starts at the last upper-case letter of a run that a lower-case letter follows. */
  predicate LastOfRun(cs: Classes, s: string, i: nat) {
    1 <= i && i + 1 < |s| && cs.IsUpper(s[i-1]) && cs.IsUpper(s[i]) && cs.lowercase(s[i+1])
  }

  predicate WordStart(cs: Classes, s: string, i: nat) { AfterLower(cs, s, i) || LastOfRun(cs, s, i) }

  /** The first `k` characters, each word start with the separator before it. */
  function Separated(cs: Classes, s: string, k: nat): string
    requires k <= |s|
  {
    if k == 0 then ""
    else Separated(cs, s, k - 1) + (if WordStart(cs, s, k - 1) then " - " else "") + [s[k-1]]
  }

  function WordStarts(cs: Classes, s: string, k: nat): nat
    requires k <= |s|
  {
    if k == 0 then 0 else WordStarts(cs, s, k - 1) + if WordStart(cs, s, k - 1) then 1 else 0
  }

  /** Letters the scan can take for upper case, in either sense. */
  function Capitals(cs: Classes, s: string, k: nat): nat
    requires k <= |s|
  {
    if k == 0 then 0 else Capitals(cs, s, k - 1) + if cs.uppercase(s[k-1]) || cs.IsUpper(s[k-1]) then 1 else 0
  }

  /** Every separator stands before a capital, at most one before each, so the result is at most three
      characters longer per capital. */
  lemma {:induction false} SeparatedLength(cs: Classes, s: string, k: nat)
    requires k <= |s|
    ensures |Separated(cs, s, k)| == k + 3 * WordStarts(cs, s, k)
    ensures WordStarts(cs, s, k) <= Capitals(cs, s, k)
  {
    if k > 0 { SeparatedLength(cs, s, k - 1); }
  }

  /** The separator before a word start. */
  function Gap(cs: Classes, s: string, i: nat): string { if WordStart(cs, s, i) then [' ', '-', ' '] else [] }

  /** Deletes the separators, a dash between two spaces, that stand before the marked characters. */
  function Joined(cs: Classes, s: string, k: nat, out: string): string
    requires k <= |s|
  {
    if k == 0 || |out| == 0 then ""
    else
      var gap := Gap(cs, s, k - 1);
      var rest := |out| - |gap| - 1;
      if rest < 0 || out[rest..|out| - 1] != gap then "" else Joined(cs, s, k - 1, out[..rest]) + [out[|out| - 1]]
  }

  lemma JoinedStep(cs: Classes, s: string, k: nat, rest: string)
    requires 0 < k <= |s|
    ensures Joined(cs, s, k, rest + Gap(cs, s, k - 1) + [s[k-1]]) == Joined(cs, s, k - 1, rest) + [s[k-1]]
  {
    hide WordStart, Gap;
    InThreeParts(rest, Gap(cs, s, k - 1), s[k-1]);
  }

  lemma InThreeParts(rest: string, gap: string, c: char)
    ensures var out := rest + gap + [c];
            && |out| - |gap| - 1 == |rest| && out[|out| - 1] == c
            && out[|rest|..|out| - 1] == gap && out[..|rest|] == rest
  {
  }

  /** Deleting the separators gives the input back. */
  lemma {:induction false} JoinedIsInput(cs: Classes, s: string, k: nat)
    requires k <= |s|
    ensures Joined(cs, s, k, Separated(cs, s, k)) == s[..k]
  {
    hide WordStart, Joined;
    if k == 0 {
      NothingToJoin(cs, s);
    } else {
      JoinedStep(cs, s, k, Separated(cs, s, k - 1));
      JoinedIsInput(cs, s, k - 1);
      assert s[..k] == s[..k-1] + [s[k-1]];
      assert Separated(cs, s, k) == Separated(cs, s, k - 1) + Gap(cs, s, k - 1) + [s[k-1]];
    }
  }

  lemma NothingToJoin(cs: Classes, s: string)
    ensures Joined(cs, s, 0, "") == ""
  {
  }

  const ASCII := Classes(
    c => 'A' <= c <= 'Z', c => 'a' <= c <= 'z', c => !('A' <= c <= 'Z'), c => !('a' <= c <= 'z'))

  predicate Capital(c: char) { 'A' <= c <= 'Z' }

  predicate Small(c: char) { 'a' <= c <= 'z' }

  /** In plain letters: a word starts at a capital behind a small letter, and at a capital between a capital
      and a small letter; nowhere else. */
  lemma AsciiWordStarts(s: string, i: nat)
    ensures ASCII.Valid()
    ensures WordStart(ASCII, s, i) <==>
              0 < i < |s| && Capital(s[i])
              && (Small(s[i-1]) || (Capital(s[i-1]) && i + 1 < |s| && Small(s[i+1])))
  {
  }

  // ---------------------------------------------------------------- the scan

  /** Where the scan is: at the k-th character of the original, at the blank just inserted before it, or
      at that character for the second time. `cut` says that a separator was just put before the
      character behind. */
  datatype Place = AtChar(k: nat, cut: bool) | AtBlank(k: nat) | Again(k: nat)

  function Rank(s: string, p: Place): int {
    match p
    case AtChar(k, cut) => 6 * (|s| - k) + if cut then 0 else 3
    case AtBlank(k) => 6 * (|s| - k - 1) + 2
    case Again(k) => 6 * (|s| - k - 1) + 1
  }

  /** The string before the scan position, at the k-th character: the run's last letter gets its
      separator only when the letter behind it is met. */
  function Behind(cs: Classes, s: string, k: nat, cut: bool): string
    requires k <= |s|
  {
    if k > 0 && LastOfRun(cs, s, k - 1) && !cut then Separated(cs, s, k - 1) + [s[k-1]] else Separated(cs, s, k)
  }

  ghost predicate Scanning(cs: Classes, s: string, p: Place, input: string, index: nat) {
    match p
    case AtChar(k, cut) =>
      k <= |s| && input == Behind(cs, s, k, cut) + s[k..] && index == |Behind(cs, s, k, cut)|
    case AtBlank(k) =>
      k < |s| && WordStart(cs, s, k) && input == Separated(cs, s, k) + " - " + s[k..]
      && index == |Separated(cs, s, k)| + 2
    case Again(k) =>
      k < |s| && WordStart(cs, s, k) && input == Separated(cs, s, k) + " - " + s[k..]
      && index == |Separated(cs, s, k)| + 3
  }

  ghost predicate Flags(cs: Classes, s: string, p: Place, lastLower: bool, lastUpper: bool, lastLastUpper: bool) {
    match p
    case AtChar(k, cut) =>
      && k <= |s|
      && lastLower == (k > 0 && cs.IsLower(s[k-1]))
      && lastUpper == (k > 0 && cs.IsUpper(s[k-1]))
      && lastLastUpper == (k > 1 && cs.IsUpper(s[k-2]) && !cut)
    case AtBlank(k) => true
    case Again(k) => !lastLower && !lastUpper
  }

  ghost predicate State(
    cs: Classes, s: string, p: Place, input: string, index: int, lastLower: bool, lastUpper: bool, lastLastUpper: bool)
  {
    index >= 0 && Scanning(cs, s, p, input, index) && Flags(cs, s, p, lastLower, lastUpper, lastLastUpper)
  }

  method PreserveCamelCase(original: string, cs: Classes) returns (input: string)
    requires cs.Valid()
    ensures input == Separated(cs, original, |original|)
  {
    hide Separated, Scanning, Flags, Rank, LastOfRun, State;
    input := original;
    var isLastCharLower, isLastCharUpper, isLastLastCharUpper := false, false, false;
    var index := 0;
    ghost var s, place := original, AtChar(0, false);
    AtTheStart(cs, s);
    while index < |input|
      invariant index >= 0
      invariant State(cs, s, place, input, index, isLastCharLower, isLastCharUpper, isLastLastCharUpper)
      decreases Rank(s, place)
    {
      var character := input[index];
      if isLastCharLower && cs.uppercase(character) {
        place := InsertHere(cs, s, place, input, index, isLastCharLower, isLastCharUpper, isLastLastCharUpper);
        input := input[..index] + " - " + input[index..];
        isLastCharLower := false;
        isLastLastCharUpper := isLastCharUpper;
        isLastCharUpper := true;
        index := index + 1;
      } else if isLastCharUpper && isLastLastCharUpper && cs.lowercase(character) {
        place := InsertBefore(cs, s, place, input, index, isLastCharLower, isLastCharUpper, isLastLastCharUpper);
        input := input[..index - 1] + " - " + input[index - 1..];
        isLastLastCharUpper := isLastCharUpper;
        isLastCharUpper := false;
        isLastCharLower := true;
      } else {
        place := ReadOn(cs, s, place, input, index, isLastCharLower, isLastCharUpper, isLastLastCharUpper);
        isLastCharLower := cs.lowerFixed(character) && !cs.upperFixed(character);
        isLastLastCharUpper := isLastCharUpper;
        isLastCharUpper := cs.upperFixed(character) && !cs.lowerFixed(character);
      }
      index := index + 1;
    }
    AtTheEnd(cs, s, place, input, index, isLastCharLower, isLastCharUpper, isLastLastCharUpper);
  }

  lemma AtTheStart(cs: Classes, s: string)
    ensures State(cs, s, AtChar(0, false), s, 0, false, false, false)
  {
  }

  /** The first branch: a word starts behind a lower-case letter. */
  lemma InsertHere(cs: Classes, s: string, p: Place, input: string, index: nat, l: bool, u: bool, uu: bool)
    returns (q: Place)
    requires cs.Valid() && State(cs, s, p, input, index, l, u, uu) && index < |input|
    requires l && cs.uppercase(input[index])
    ensures State(cs, s, q, input[..index] + " - " + input[index..], index + 2, false, true, u)
    ensures 0 <= Rank(s, q) < Rank(s, p)
  {
    hide Separated, Behind;
    CharacterAt(cs, s, p, input, index);
    var k := p.k;
    q := AtBlank(k);
    NoRunBehindLower(cs, s, k, p.cut);
    assert input[..index] == Separated(cs, s, k) && input[index..] == s[k..];
  }

  lemma NoRunBehindLower(cs: Classes, s: string, k: nat, cut: bool)
    requires k <= |s| && (k == 0 || !LastOfRun(cs, s, k - 1) || cut)
    ensures Behind(cs, s, k, cut) == Separated(cs, s, k)
  {
  }

  /** The second branch: the letter behind is the last of a run. */
  lemma InsertBefore(cs: Classes, s: string, p: Place, input: string, index: nat, l: bool, u: bool, uu: bool)
    returns (q: Place)
    requires cs.Valid() && State(cs, s, p, input, index, l, u, uu) && index < |input|
    requires u && uu && cs.lowercase(input[index])
    ensures index >= 1
    ensures State(cs, s, q, input[..index-1] + " - " + input[index-1..], index + 1, true, false, u)
    ensures 0 <= Rank(s, q) < Rank(s, p)
  {
    hide Separated;
    CharacterAt(cs, s, p, input, index);
    var k := p.k - 1;
    q := AtBlank(k);
    var before := Separated(cs, s, k);
    assert input == before + [s[k]] + s[k+1..];
    assert input[..index-1] == before && input[index-1..] == [s[k]] + s[k+1..] == s[k..];
  }

  lemma CharacterAt(cs: Classes, s: string, p: Place, input: string, index: nat)
    requires Scanning(cs, s, p, input, index) && index < |input|
    ensures p.k < |s|
    ensures input[index] == if p.AtBlank? then ' ' else s[p.k]
  {
  }

  /** The third branch: nothing is inserted now. */
  lemma ReadOn(cs: Classes, s: string, p: Place, input: string, index: nat, l: bool, u: bool, uu: bool)
    returns (q: Place)
    requires cs.Valid() && State(cs, s, p, input, index, l, u, uu) && index < |input|
    requires !(l && cs.uppercase(input[index])) && !(u && uu && cs.lowercase(input[index]))
    ensures State(cs, s, q, input, index + 1, cs.IsLower(input[index]), cs.IsUpper(input[index]), u)
    ensures 0 <= Rank(s, q) < Rank(s, p)
  {
    hide Separated, Behind;
    CharacterAt(cs, s, p, input, index);
    match p {
      case AtChar(k, cut) =>
        NoRunBehindLower(cs, s, k, cut);
        PassBy(cs, s, k, cut, input, index);
        q := AtChar(k + 1, false);
      case AtBlank(k) =>
        q := Again(k);
      case Again(k) =>
        PassAgain(cs, s, k, input, index);
        q := AtChar(k + 1, true);
    }
  }

  /** The third branch, on an original character: nothing is inserted before it now. */
  lemma PassBy(cs: Classes, s: string, k: nat, cut: bool, input: string, index: nat)
    requires Scanning(cs, s, AtChar(k, cut), input, index) && k < |s|
    requires !AfterLower(cs, s, k) && (k > 0 && LastOfRun(cs, s, k - 1) ==> cut)
    ensures Scanning(cs, s, AtChar(k + 1, false), input, index + 1)
  {
  }

  /** The third branch, on a character its separator was just put before. */
  lemma PassAgain(cs: Classes, s: string, k: nat, input: string, index: nat)
    requires Scanning(cs, s, Again(k), input, index)
    ensures Scanning(cs, s, AtChar(k + 1, true), input, index + 1)
  {
  }

  lemma AtTheEnd(cs: Classes, s: string, p: Place, input: string, index: int, l: bool, u: bool, uu: bool)
    requires State(cs, s, p, input, index, l, u, uu) && index >= |input|
    ensures input == Separated(cs, s, |s|)
  {
  }
}
