/**
 * `is_arabic`: the script classifier the handler runs on user transcripts
 * when the input language preference is `auto`.
 *
 * Python's `str.isalpha` depends on the Unicode character database, so the
 * classifier takes it as a parameter `isAlpha`.  Characters of the Arabic
 * blocks are counted whether or not `isAlpha` holds of them.
 */
module ArabicScript {

  /** The ranges of the classifier's character class: U+0600-U+06FF, U+0750-U+077F, U+08A0-U+08FF. */
  predicate InArabicBlock(c: char) {
    var n := c as int;
    (0x0600 <= n <= 0x06FF) || (0x0750 <= n <= 0x077F) || (0x08A0 <= n <= 0x08FF)
  }

  /** The number of characters of `s` that satisfy `p`. */
  function Count(s: string, p: char -> bool): (k: nat)
    ensures k <= |s|
  {
    if s == [] then 0 else Count(s[..|s| - 1], p) + (if p(s[|s| - 1]) then 1 else 0)
  }

  /** The positions of `s` whose character satisfies `p`: the reference meaning of `Count`. */
  ghost function Positions(s: string, p: char -> bool): set<nat> {
    set i: nat | i < |s| && p(s[i])
  }

  /**
   * `is_arabic(text)`: at least one alphabetic character, and the Arabic-block
   * characters are more than 0.3 of the alphabetic ones.  The quotient
   * `arabic / total > 0.3` is read over the rationals, where it is `10 * arabic > 3 * total`.
   */
  predicate IsArabic(text: string, isAlpha: char -> bool) {
    var arabic := Count(text, InArabicBlock);
    var total := Count(text, isAlpha);
    total > 0 && 10 * arabic > 3 * total
  }

  lemma {:induction false} CountAppend(a: string, b: string, p: char -> bool)
    ensures Count(a + b, p) == Count(a, p) + Count(b, p)
  {
    if b != [] {
      assert (a + b)[..|a + b| - 1] == a + b[..|b| - 1];
      CountAppend(a, b[..|b| - 1], p);
    } else {
      assert a + b == a;
    }
  }

  /** `Count` is the number of positions that satisfy the predicate. */
  lemma {:induction false} CountIsPositions(s: string, p: char -> bool)
    ensures Count(s, p) == |Positions(s, p)|
  {
    if s != [] {
      var n := |s| - 1;
      CountIsPositions(s[..n], p);
      var before := Positions(s[..n], p);
      assert Positions(s, p) == before + (if p(s[n]) then {n} else {}) by {
        forall i: nat | i < n ensures (i in Positions(s, p)) == (i in before) {
          assert s[..n][i] == s[i];
        }
      }
      assert n !in before;
    } else {
      assert Positions(s, p) == {};
    }
  }

  /** Some character satisfies `p` exactly when the count is positive. */
  lemma {:induction false} CountPositive(s: string, p: char -> bool)
    ensures Count(s, p) > 0 <==> exists i :: 0 <= i < |s| && p(s[i])
  {
    CountIsPositions(s, p);
    if exists i :: 0 <= i < |s| && p(s[i]) {
      var i :| 0 <= i < |s| && p(s[i]);
      assert i in Positions(s, p);
    } else {
      assert Positions(s, p) == {};
    }
  }

  /** A predicate that holds wherever another does counts at least as many characters. */
  lemma {:induction false} CountMonotone(s: string, p: char -> bool, q: char -> bool)
    requires forall i :: 0 <= i < |s| && p(s[i]) ==> q(s[i])
    ensures Count(s, p) <= Count(s, q)
  {
    if s != [] {
      var n := |s| - 1;
      assert forall i :: 0 <= i < n ==> s[..n][i] == s[i];
      CountMonotone(s[..n], p, q);
    }
  }

  /**
   * The classifier in terms of positions: alphabetic characters exist and the
   * Arabic positions outnumber three tenths of the alphabetic positions.
   */
  lemma IsArabicMeaning(text: string, isAlpha: char -> bool)
    ensures IsArabic(text, isAlpha) <==>
      (exists i :: 0 <= i < |text| && isAlpha(text[i])) &&
      10 * |Positions(text, InArabicBlock)| > 3 * |Positions(text, isAlpha)|
  {
    CountPositive(text, isAlpha);
    CountIsPositions(text, isAlpha);
    CountIsPositions(text, InArabicBlock);
  }

  /** A text with no alphabetic character, the empty text among them, is not Arabic. */
  lemma NoLettersIsNotArabic(text: string, isAlpha: char -> bool)
    requires forall i :: 0 <= i < |text| ==> !isAlpha(text[i])
    ensures !IsArabic(text, isAlpha)
  {
    CountPositive(text, isAlpha);
  }

  /** A text with no Arabic-block character is not Arabic. */
  lemma NoArabicBlockIsNotArabic(text: string, isAlpha: char -> bool)
    requires forall i :: 0 <= i < |text| ==> !InArabicBlock(text[i])
    ensures !IsArabic(text, isAlpha)
  {
    CountPositive(text, InArabicBlock);
  }

  /** A text with letters, all of whose letters are in the Arabic blocks, is Arabic. */
  lemma ArabicLettersAreArabic(text: string, isAlpha: char -> bool)
    requires exists i :: 0 <= i < |text| && isAlpha(text[i])
    requires forall i :: 0 <= i < |text| && isAlpha(text[i]) ==> InArabicBlock(text[i])
    ensures IsArabic(text, isAlpha)
  {
    CountPositive(text, isAlpha);
    CountMonotone(text, isAlpha, InArabicBlock);
  }

  /** Appending an Arabic-block character never turns an Arabic text into a non-Arabic one. */
  lemma AppendArabicKeepsArabic(text: string, c: char, isAlpha: char -> bool)
    requires IsArabic(text, isAlpha) && InArabicBlock(c)
    ensures IsArabic(text + [c], isAlpha)
  {
    CountAppend(text, [c], InArabicBlock);
    CountAppend(text, [c], isAlpha);
  }

  /** Appending a character that is neither Arabic-block nor alphabetic changes nothing. */
  lemma AppendNeutralKeepsClass(text: string, c: char, isAlpha: char -> bool)
    requires !InArabicBlock(c) && !isAlpha(c)
    ensures IsArabic(text + [c], isAlpha) == IsArabic(text, isAlpha)
  {
    CountAppend(text, [c], InArabicBlock);
    CountAppend(text, [c], isAlpha);
  }

  /**
   * Arabic-block characters that are not letters still count, so the Arabic
   * count can exceed the alphabetic count: one Latin letter followed by two
   * ARABIC-INDIC DIGIT ZERO (U+0660) classifies as Arabic.
   */
  lemma ArabicDigitsCount(isAlpha: char -> bool)
    requires isAlpha('a') && !isAlpha('\U{0660}')
    ensures var text := "a\U{0660}\U{0660}";
      Count(text, InArabicBlock) == 2 && Count(text, isAlpha) == 1 && IsArabic(text, isAlpha)
  {
    var text := "a\U{0660}\U{0660}";
    assert text[..2] == "a\U{0660}" && text[..2][..1] == "a";
  }

  /** "Hello how are you" is English whatever the letters are. */
  lemma EnglishGreeting(isAlpha: char -> bool)
    ensures !IsArabic("Hello how are you", isAlpha)
  {
    NoArabicBlockIsNotArabic("Hello how are you", isAlpha);
  }

  /** "مرحبا كيف حالك" is Arabic once its letters are alphabetic and the space is not. */
  lemma ArabicGreeting(isAlpha: char -> bool)
    requires forall c :: c in "مرحبا كيف حالك" && c != ' ' ==> isAlpha(c)
    requires !isAlpha(' ')
    ensures IsArabic("مرحبا كيف حالك", isAlpha)
  {
    var text := "مرحبا كيف حالك";
    assert isAlpha(text[0]);
    ArabicLettersAreArabic(text, isAlpha);
  }
}
