/**
 * The input patterns the forms test before sending anything: person names, phone numbers,
 * e-mail addresses, passwords, and category names and descriptions.
 */
module Validators {
  import opened Common

  /** The keys of the error objects the forms fill, one per validated field. */
  datatype Field =
    | NameField | LastNameField | SurnameField | EmailField | PhoneField | PasswordField
    | NewPasswordField | ConfirmPasswordField | DescriptionField

  /** The accented letters the name patterns add to A-Z and a-z. */
  predicate AccentedLetter(c: char)
  {
    c in {'Á', 'É', 'Í', 'Ó', 'Ú', 'á', 'é', 'í', 'ó', 'ú', 'Ñ', 'ñ'}
  }

  predicate AsciiLetter(c: char)
  {
    'A' <= c <= 'Z' || 'a' <= c <= 'z'
  }

  /** `[A-Za-zÁÉÍÓÚáéíóúÑñ ]` */
  predicate PersonNameChar(c: char)
  {
    AsciiLetter(c) || AccentedLetter(c) || c == ' '
  }

  /** `/^[A-Za-zÁÉÍÓÚáéíóúÑñ ]{2,30}$/` */
  predicate ValidPersonName(s: string)
  {
    2 <= |s| <= 30 && forall i | 0 <= i < |s| :: PersonNameChar(s[i])
  }

  /** `/^\d{10}$/` (`\d` is the ASCII digits only) */
  predicate ValidPhone(s: string)
  {
    |s| == 10 && forall i | 0 <= i < |s| :: IsDigit(s[i])
  }

  /** `s[from..to]` is a non-empty run without whitespace: what `\S+` can match there. */
  predicate NonSpaceRun(s: string, from: int, to: int)
  {
    0 <= from < to <= |s| && forall k | from <= k < to :: !IsSpace(s[k])
  }

  /**
   * `/\S+@\S+\.\S+/` (not anchored): some substring is a non-space run, '@', a non-space run,
   * '.', and a non-space run.
   */
  ghost predicate EmailPatternMatches(s: string)
  {
    exists a, at, dot, e :: EmailPatternParts(s, a, at, dot, e)
  }

  /** `s[a..at]`, '@', `s[at+1..dot]`, '.', `s[dot+1..e]` in that order. */
  predicate EmailPatternParts(s: string, a: int, at: int, dot: int, e: int)
  {
    NonSpaceRun(s, a, at) && 0 <= at < |s| && s[at] == '@'
    && NonSpaceRun(s, at + 1, dot) && dot < |s| && s[dot] == '.' && NonSpaceRun(s, dot + 1, e)
  }

  /**
   * The same test, stated on two positions: an '@' with a non-space character before it, a '.'
   * at least two places later with a non-space character after it, and no whitespace between them.
   */
  predicate ValidEmail(s: string)
  {
    exists at, dot | 0 < at && at + 1 < dot && dot + 1 < |s| ::
      EmailPositions(s, at, dot)
  }

  predicate EmailPositions(s: string, at: int, dot: int)
    requires 0 < at && at + 1 < dot && dot + 1 < |s|
  {
    s[at] == '@' && s[dot] == '.' && !IsSpace(s[at - 1]) && !IsSpace(s[dot + 1])
    && forall k | at < k < dot :: !IsSpace(s[k])
  }

  /** The position form agrees with the pattern in both directions. */
  lemma ValidEmailIffPattern(s: string)
    ensures ValidEmail(s) <==> EmailPatternMatches(s)
  {
    if ValidEmail(s) {
      var at, dot :| 0 < at && at + 1 < dot && dot + 1 < |s| && EmailPositions(s, at, dot);
      assert EmailPatternParts(s, at - 1, at, dot, dot + 2);
    }
    if EmailPatternMatches(s) {
      var a, at, dot, e :| EmailPatternParts(s, a, at, dot, e);
      assert EmailPositions(s, at, dot);
    }
  }

  /** A valid address always has a non-whitespace character, so it is never blank. */
  lemma ValidEmailNotBlank(s: string)
    requires ValidEmail(s)
    ensures !IsBlank(s)
  {
    var at, dot :| 0 < at && at + 1 < dot && dot + 1 < |s| && EmailPositions(s, at, dot);
    assert !IsSpace(s[at]);
  }

  /** `[@$!%*?&]` */
  predicate PasswordSymbol(c: char)
  {
    c in {'@', '$', '!', '%', '*', '?', '&'}
  }

  /** `[A-Za-z\d@$!%*?&]` */
  predicate PasswordChar(c: char)
  {
    AsciiLetter(c) || IsDigit(c) || PasswordSymbol(c)
  }

  /**
   * `/^(?=.*[a-z])(?=.*[A-Z])(?=.*\d)(?=.*[@$!%*?&])[A-Za-z\d@$!%*?&]{8,}$/`: at least eight
   * characters from the class, among them a lower-case letter, an upper-case letter, a digit
   * and a symbol.
   */
  predicate StrongPassword(s: string)
  {
    && |s| >= 8
    && (forall i | 0 <= i < |s| :: PasswordChar(s[i]))
    && (exists i | 0 <= i < |s| :: 'a' <= s[i] <= 'z')
    && (exists i | 0 <= i < |s| :: 'A' <= s[i] <= 'Z')
    && (exists i | 0 <= i < |s| :: IsDigit(s[i]))
    && (exists i | 0 <= i < |s| :: PasswordSymbol(s[i]))
  }

  /**
   * `[A-Za-zÁÉÍÓÚáéíóúÑñ0-9 \\-]` as written: inside a regular-expression literal `\\` is a
   * backslash, so the class admits the backslash besides letters, digits, spaces and hyphens.
   */
  predicate CategoryNameCharAsWritten(c: char)
  {
    AsciiLetter(c) || AccentedLetter(c) || IsDigit(c) || c == ' ' || c == '\\' || c == '-'
  }

  /** The name pattern as written: 3 to 100 characters of that class. */
  predicate CategoryNameAsWritten(s: string)
  {
    3 <= |s| <= 100 && forall i | 0 <= i < |s| :: CategoryNameCharAsWritten(s[i])
  }

  /** The class the message describes: letters, digits, spaces and hyphens. */
  predicate CategoryNameChar(c: char)
  {
    AsciiLetter(c) || AccentedLetter(c) || IsDigit(c) || c == ' ' || c == '-'
  }

  /** A category name of 3 to 100 letters, digits, spaces and hyphens. */
  predicate ValidCategoryName(s: string)
  {
    3 <= |s| <= 100 && forall i | 0 <= i < |s| :: CategoryNameChar(s[i])
  }

  /** The pattern as written admits a name made partly of backslashes, which the intended class does not. */
  lemma CategoryNameBackslashAccepted()
    ensures CategoryNameAsWritten("a\\b") && !ValidCategoryName("a\\b")
  {
    assert !CategoryNameChar("a\\b"[1]);
  }

  /** The corrected class is the written one without the backslash. */
  lemma ValidCategoryNameIsWrittenWithoutBackslash(s: string)
    ensures ValidCategoryName(s) <==> CategoryNameAsWritten(s) && forall i | 0 <= i < |s| :: s[i] != '\\'
  {
  }

  /** `[A-Za-zÁÉÍÓÚáéíóúÑñ0-9 ,.()!¡¿?"'-]` */
  predicate DescriptionChar(c: char)
  {
    AsciiLetter(c) || AccentedLetter(c) || IsDigit(c)
    || c in {' ', ',', '.', '(', ')', '!', '¡', '¿', '?', '"', '\'', '-'}
  }

  /** `/^[A-Za-zÁÉÍÓÚáéíóúÑñ0-9 ,.()!¡¿?\"'-]{0,255}$/` */
  predicate ValidCategoryDescription(s: string)
  {
    |s| <= 255 && forall i | 0 <= i < |s| :: DescriptionChar(s[i])
  }

  // ---------------------------------------------------------------------------
  // Examples that pin the patterns down

  lemma PatternExamples()
    ensures ValidPersonName("Ana María") && !ValidPersonName("A") && !ValidPersonName("Ana3")
    ensures ValidPhone("5512345678") && !ValidPhone("12345") && !ValidPhone("55-1234567")
    ensures StrongPassword("Secret1!") && !StrongPassword("secret1!") && !StrongPassword("Secret1")
  {
    var p := "Secret1!";
    assert 'a' <= p[1] <= 'z' && 'A' <= p[0] <= 'Z' && IsDigit(p[6]) && PasswordSymbol(p[7]);
    assert !PersonNameChar("Ana3"[3]);
    assert !IsDigit("55-1234567"[2]);
    var q := "secret1!";
    assert forall i | 0 <= i < |q| :: !('A' <= q[i] <= 'Z');
  }

  lemma EmailExamples()
    ensures ValidEmail("a@b.com")
    ensures !ValidEmail("a@b") && !ValidEmail("@b.com") && !ValidEmail("a @b.com") && !ValidEmail("a@.com")
  {
    assert EmailPositions("a@b.com", 1, 3);
  }
}
