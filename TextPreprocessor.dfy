/**
 * Text preprocessing: half-width to full-width conversion followed by three
 * optional "replace with a space" passes, each switched by a flag that the
 * Java class reads from its configuration.
 */
module Preprocessing {
  import opened Optional
  import opened Strings

  /**
   * The half-width table: the 94 characters U+0021 ('!') .. U+007E ('~') in
   * code-point order, which is exactly the Java string literal.
   */
  function HalfWidthChars(): string {
    seq(94, k => if 0 <= k < 94 then (0x21 + k) as char else ' ')
  }
  /** The full-width table: U+FF01 ('！') .. U+FF5E ('～'), aligned with `HalfWidthChars`. */
  function FullWidthChars(): string {
    seq(94, k => if 0 <= k < 94 then (0xFF01 + k) as char else ' ')
  }

  /**
   * The Unicode general categories behind `\p{L}`, `\p{N}` and `\p{P}`.
   * The Unicode character database is not part of this model, so the
   * three classes are supplied by the caller.
   */
  datatype CharClasses = CharClasses(isLetter: char -> bool, isNumber: char -> bool, isPunctuation: char -> bool)

  /** The four switches, named as in the configuration file. */
  datatype Options = Options(keepPunctuation: bool, removeNumbers: bool, removeSpecialChars: bool, normalizeToChinese: bool)

  /** `\d` in a Java regex: the ASCII digits only. */
  predicate IsAsciiDigit(c: char) {
    '0' <= c <= '9'
  }

  /** The character `convertToFullWidth` writes for `c`. */
  function Widen(c: char): char {
    var k := IndexOf(HalfWidthChars(), c);
    if k >= 0 then FullWidthChars()[k] else c
  }

  /** The per-character table map over a whole string. */
  function FullWidth(s: string): (r: string)
    ensures |r| == |s| && forall i :: 0 <= i < |s| ==> r[i] == Widen(s[i])
  {
    if s == [] then [] else [Widen(s[0])] + FullWidth(s[1..])
  }

  /** The character at index k of the half-width table widens to the one at index k of the full-width table. */
  lemma WidenAt(k: nat)
    requires k < |HalfWidthChars()|
    ensures Widen(HalfWidthChars()[k]) == FullWidthChars()[k]
  {
    var j := IndexOf(HalfWidthChars(), HalfWidthChars()[k]);
    assert HalfWidthChars()[j] as int == 0x21 + j;
  }

  /** Widen shifts exactly U+0021..U+007E by U+FEE0 and leaves every other character alone. */
  lemma WidenShifts(c: char)
    ensures 0x21 <= c as int <= 0x7E ==> Widen(c) as int == c as int + 0xFEE0
    ensures !(0x21 <= c as int <= 0x7E) ==> Widen(c) == c
  {
    if 0x21 <= c as int <= 0x7E {
      assert HalfWidthChars()[c as int - 0x21] == c;
      WidenAt(c as int - 0x21);
    } else {
      assert c !in HalfWidthChars() by {
        forall k | 0 <= k < 94 ensures HalfWidthChars()[k] != c {
          assert HalfWidthChars()[k] as int == 0x21 + k;
        }
      }
    }
  }

  /** A widened character is never one of the half-width table's characters. */
  lemma WidenLeavesNoHalfWidth(c: char)
    ensures Widen(c) !in HalfWidthChars()
  {
    WidenShifts(c);
    forall k | 0 <= k < 94 ensures HalfWidthChars()[k] != Widen(c) {
      assert HalfWidthChars()[k] as int == 0x21 + k;
    }
  }

  /** After conversion no half-width table character, in particular no ASCII digit, remains. */
  lemma {:induction false} FullWidthLeavesNoHalfWidth(s: string)
    ensures forall i :: 0 <= i < |s| ==> FullWidth(s)[i] !in HalfWidthChars() && !IsAsciiDigit(FullWidth(s)[i])
  {
    forall i | 0 <= i < |s|
      ensures FullWidth(s)[i] !in HalfWidthChars() && !IsAsciiDigit(FullWidth(s)[i])
    {
      WidenLeavesNoHalfWidth(s[i]);
      WidenShifts(s[i]);
    }
  }

  /** Converting twice is converting once. */
  lemma FullWidthIdempotent(s: string)
    ensures FullWidth(FullWidth(s)) == FullWidth(s)
  {
    var w := FullWidth(s);
    forall i | 0 <= i < |w| ensures Widen(w[i]) == w[i] {
      WidenLeavesNoHalfWidth(s[i]);
    }
  }

  /**
   * `convertToFullWidth`: a character found at index k of the half-width
   * table is replaced by the character at index k of the full-width table;
   * every other character is copied.
   */
  method ConvertToFullWidth(text: string) returns (r: string)
    ensures |r| == |text|
    ensures forall i, k :: 0 <= i < |text| && 0 <= k < |HalfWidthChars()| && HalfWidthChars()[k] == text[i] ==> r[i] == FullWidthChars()[k]
    ensures forall i :: 0 <= i < |text| && text[i] !in HalfWidthChars() ==> r[i] == text[i]
    ensures r == FullWidth(text)
  {
    r := [];
    var i := 0;
    while i < |text|
      invariant 0 <= i <= |text|
      invariant r == FullWidth(text[..i])
    {
      var c := text[i];
      var index := IndexOf(HalfWidthChars(), c);
      if index != -1 {
        r := r + [FullWidthChars()[index]];
      } else {
        r := r + [c];
      }
      assert text[..i + 1] == text[..i] + [c];
      i := i + 1;
    }
    assert text[..i] == text;
    forall i, k | 0 <= i < |text| && 0 <= k < |HalfWidthChars()| && HalfWidthChars()[k] == text[i]
      ensures r[i] == FullWidthChars()[k]
    {
      WidenAt(k);
    }
  }

  /** Replace every character satisfying `hit` with one space. */
  function ReplaceEach(s: string, hit: char -> bool): (r: string)
    ensures |r| == |s|
    ensures forall i :: 0 <= i < |s| ==> r[i] == if hit(s[i]) then ' ' else s[i]
  {
    if s == [] then [] else [if hit(s[0]) then ' ' else s[0]] + ReplaceEach(s[1..], hit)
  }

  /** `[^\p{L}\p{N}\p{P}\s]`: neither letter, number, punctuation nor regex whitespace. */
  predicate IsSpecial(classes: CharClasses, c: char) {
    !(classes.isLetter(c) || classes.isNumber(c) || classes.isPunctuation(c) || IsRegexSpace(c))
  }

  /** `removeSpecialCharacters`. */
  function RemoveSpecialCharacters(classes: CharClasses, text: string): (r: string)
    ensures |r| == |text|
    ensures forall i :: 0 <= i < |text| ==> r[i] == if IsSpecial(classes, text[i]) then ' ' else text[i]
  {
    ReplaceEach(text, c => IsSpecial(classes, c))
  }

  /** `removePunctuation`. */
  function RemovePunctuation(classes: CharClasses, text: string): (r: string)
    ensures |r| == |text|
    ensures forall i :: 0 <= i < |text| ==> r[i] == if classes.isPunctuation(text[i]) then ' ' else text[i]
  {
    ReplaceEach(text, classes.isPunctuation)
  }

  /** Length of the run of ASCII digits at the start of `s`. */
  function DigitRun(s: string): (n: nat)
    ensures n <= |s| && (forall k :: 0 <= k < n ==> IsAsciiDigit(s[k])) && (n < |s| ==> !IsAsciiDigit(s[n]))
  {
    if s != [] && IsAsciiDigit(s[0]) then 1 + DigitRun(s[1..]) else 0
  }

  /** `removeNumbers`: `\d+` replaced by one space, leftmost and longest first. */
  function RemoveNumbers(s: string): (r: string)
    decreases |s|
  {
    if s == [] then []
    else if IsAsciiDigit(s[0]) then
      var n := DigitRun(s);
      [' '] + RemoveNumbers(s[n..])
    else [s[0]] + RemoveNumbers(s[1..])
  }

  /** `removeNumbers` leaves no ASCII digit and never lengthens the text. */
  lemma {:induction false} RemoveNumbersClears(s: string)
    ensures |RemoveNumbers(s)| <= |s|
    ensures forall i :: 0 <= i < |RemoveNumbers(s)| ==> !IsAsciiDigit(RemoveNumbers(s)[i])
    decreases |s|
  {
    if s != [] {
      if IsAsciiDigit(s[0]) {
        RemoveNumbersClears(s[DigitRun(s)..]);
      } else {
        RemoveNumbersClears(s[1..]);
      }
    }
  }

  /** A text without ASCII digits passes `removeNumbers` unchanged. */
  lemma {:induction false} RemoveNumbersWithoutDigits(s: string)
    requires forall i :: 0 <= i < |s| ==> !IsAsciiDigit(s[i])
    ensures RemoveNumbers(s) == s
    decreases |s|
  {
    if s != [] {
      RemoveNumbersWithoutDigits(s[1..]);
    }
  }

  /** Each maximal digit run becomes exactly one space: "a12b3" gives "a b ". */
  lemma RemoveNumbersExample()
    ensures RemoveNumbers("a12b3") == "a b "
  {
    assert DigitRun("12b3") == 2;
    assert "12b3"[2..] == "b3";
    assert DigitRun("3") == 1;
    assert "3"[1..] == "";
  }

  /** The preprocessing steps in their fixed order, each only when its flag enables it. */
  function Preprocessed(opts: Options, classes: CharClasses, text: Option<string>): string {
    match text
    case None => ""
    case Some(t) =>
      if t == [] then ""
      else
        var widened := if opts.normalizeToChinese then FullWidth(t) else t;
        var cleaned := if opts.removeSpecialChars then RemoveSpecialCharacters(classes, widened) else widened;
        var digitless := if opts.removeNumbers then RemoveNumbers(cleaned) else cleaned;
        if !opts.keepPunctuation then RemovePunctuation(classes, digitless) else digitless
  }

  /** With every step switched off the text comes back unchanged. */
  lemma AllStepsOffIsIdentity(classes: CharClasses, t: string)
    ensures Preprocessed(Options(true, false, false, false), classes, Some(t)) == t
  {
  }

  /** Absent or empty input yields the empty string, whatever the flags. */
  lemma EmptyInput(opts: Options, classes: CharClasses)
    ensures Preprocessed(opts, classes, None) == "" && Preprocessed(opts, classes, Some("")) == ""
  {
  }

  /**
   * With width normalisation on, the output contains no half-width table
   * character (and so no ASCII digit): the later passes only insert spaces.
   */
  lemma NormalizedOutputIsFullWidth(opts: Options, classes: CharClasses, t: string)
    requires opts.normalizeToChinese
    ensures forall i :: 0 <= i < |Preprocessed(opts, classes, Some(t))| ==> Preprocessed(opts, classes, Some(t))[i] !in HalfWidthChars()
  {
    assert ' ' !in HalfWidthChars() by {
      forall k | 0 <= k < 94 ensures HalfWidthChars()[k] != ' ' {
        assert HalfWidthChars()[k] as int == 0x21 + k;
      }
    }
    if t != [] {
      var widened := FullWidth(t);
      FullWidthLeavesNoHalfWidth(t);
      var cleaned := if opts.removeSpecialChars then RemoveSpecialCharacters(classes, widened) else widened;
      assert forall i :: 0 <= i < |cleaned| ==> !IsAsciiDigit(cleaned[i]);
      if opts.removeNumbers {
        RemoveNumbersWithoutDigits(cleaned);
      }
    }
  }

  /** With width normalisation on, the number-removal switch has no effect. */
  lemma NormalizedIgnoresRemoveNumbers(opts: Options, classes: CharClasses, t: string)
    requires opts.normalizeToChinese
    ensures Preprocessed(opts.(removeNumbers := true), classes, Some(t)) == Preprocessed(opts.(removeNumbers := false), classes, Some(t))
  {
    if t != [] {
      var widened := FullWidth(t);
      FullWidthLeavesNoHalfWidth(t);
      var cleaned := if opts.removeSpecialChars then RemoveSpecialCharacters(classes, widened) else widened;
      assert forall i :: 0 <= i < |cleaned| ==> !IsAsciiDigit(cleaned[i]);
      RemoveNumbersWithoutDigits(cleaned);
    }
  }

  /** Only `removeNumbers` can shorten the text; the other steps keep every position. */
  lemma LengthKeptWithoutNumberRemoval(opts: Options, classes: CharClasses, t: string)
    requires !opts.removeNumbers
    ensures |Preprocessed(opts, classes, Some(t))| == |t|
  {
  }

  /** The preprocessor, with its four switches and the character classes fixed at construction. */
  class TextPreprocessor {
    const options: Options
    const classes: CharClasses

    constructor (keepPunctuation: bool, removeNumbers: bool, removeSpecialChars: bool, normalizeToChinese: bool, classes: CharClasses)
      ensures options == Options(keepPunctuation, removeNumbers, removeSpecialChars, normalizeToChinese)
      ensures this.classes == classes
    {
      this.options := Options(keepPunctuation, removeNumbers, removeSpecialChars, normalizeToChinese);
      this.classes := classes;
    }

    /** `preprocess`: `null` or empty gives ""; otherwise the enabled steps in order. */
    method Preprocess(text: Option<string>) returns (r: string)
      ensures text == None || text == Some("") ==> r == ""
      ensures r == Preprocessed(options, classes, text)
    {
      if text == None || text.value == [] {
        return "";
      }
      var processedText := text.value;
      if options.normalizeToChinese {
        processedText := ConvertToFullWidth(processedText);
      }
      if options.removeSpecialChars {
        processedText := RemoveSpecialCharacters(classes, processedText);
      }
      if options.removeNumbers {
        processedText := RemoveNumbers(processedText);
      }
      if !options.keepPunctuation {
        processedText := RemovePunctuation(classes, processedText);
      }
      r := processedText;
    }
  }
}
