/**
 * `requirements` of helpers.py: a password must hold at least one letter,
 * one digit and one character of a fixed special set. Length is checked by
 * the callers, not here.
 */
module Password {
  import opened Chars

  /**
   * The characters of the regular-expression class `[@_!#$%^&*()<>?/\|}'{~:]`.
   * Inside the class `\|` is an escaped `|`, so backslash is not one of them.
   */
  const SpecialChars: string := "@_!#$%^&*()<>?/|}'{~:"

  /**
   * `regex.search(character)` on one character. The special characters are
   * printable ASCII punctuation, so no character is both special and a
   * letter or a digit.
   */
  function IsSpecial(c: char): (b: bool)
    ensures b ==> '!' <= c <= '~' && !IsDigit(c) && !IsAlpha(c)
  {
    c in SpecialChars
  }

  datatype CharClass = Letter | Digit | Special

  predicate InClass(c: char, k: CharClass) {
    match k
    case Letter => IsAlpha(c)
    case Digit => IsDigit(c)
    case Special => IsSpecial(c)
  }

  /** Some character of `p` belongs to class `k`. */
  predicate Has(p: string, k: CharClass) {
    exists i :: 0 <= i < |p| && InClass(p[i], k)
  }

  /** The verdict `requirements` computes: every one of the three classes occurs. */
  predicate MeetsRequirements(p: string) {
    Has(p, Letter) && Has(p, Digit) && Has(p, Special)
  }

  lemma HasSnoc(p: string, c: char, k: CharClass)
    ensures Has(p + [c], k) <==> Has(p, k) || InClass(c, k)
  {
    var q := p + [c];
    if Has(p, k) {
      var i :| 0 <= i < |p| && InClass(p[i], k);
      assert q[i] == p[i];
    }
    if InClass(c, k) {
      assert q[|p|] == c;
    }
    if Has(q, k) && !InClass(c, k) {
      var i :| 0 <= i < |q| && InClass(q[i], k);
      assert i < |p| && q[i] == p[i];
    }
  }

  /** `requirements(password)`: three counters over one pass of the password. */
  method Requirements(password: string) returns (ok: bool)
    ensures ok <==> MeetsRequirements(password)
  {
    var alphabet, digits, special := 0, 0, 0;
    for i := 0 to |password|
      invariant alphabet > 0 <==> Has(password[..i], Letter)
      invariant digits > 0 <==> Has(password[..i], Digit)
      invariant special > 0 <==> Has(password[..i], Special)
    {
      var character := password[i];
      assert password[..i + 1] == password[..i] + [character];
      HasSnoc(password[..i], character, Letter);
      HasSnoc(password[..i], character, Digit);
      HasSnoc(password[..i], character, Special);
      if IsAlpha(character) {
        alphabet := alphabet + 1;
      }
      if IsDigit(character) {
        digits := digits + 1;
      }
      if IsSpecial(character) {
        special := special + 1;
      }
    }
    assert password[..|password|] == password;
    ok := alphabet > 0 && digits > 0 && special > 0;
  }

  /** Adding characters never turns an accepted password into a rejected one. */
  lemma RequirementsMonotone(p: string, q: string)
    requires MeetsRequirements(p)
    ensures MeetsRequirements(p + q)
  {
    forall k: CharClass ensures Has(p + q, k) {
      var i :| 0 <= i < |p| && InClass(p[i], k);
      assert (p + q)[i] == p[i];
    }
  }

  /** The verdict depends only on which characters occur, not on order, repetition or length. */
  lemma RequirementsDependOnCharactersOnly(p: string, q: string)
    requires forall c :: c in p <==> c in q
    ensures MeetsRequirements(p) <==> MeetsRequirements(q)
  {
    forall k: CharClass ensures Has(p, k) ==> Has(q, k) {
      if Has(p, k) {
        var i :| 0 <= i < |p| && InClass(p[i], k);
        assert p[i] in q;
        var j :| 0 <= j < |q| && q[j] == p[i];
      }
    }
    forall k: CharClass ensures Has(q, k) ==> Has(p, k) {
      if Has(q, k) {
        var j :| 0 <= j < |q| && InClass(q[j], k);
        assert q[j] in p;
        var i :| 0 <= i < |p| && p[i] == q[j];
      }
    }
  }

  /**
   * A password with all three classes passes, even one of three characters:
   * the length rule is not part of this check.
   */
  lemma AcceptedExamples()
    ensures MeetsRequirements("Passw0rd!")
    ensures MeetsRequirements("a1|")
  {
    var good := "Passw0rd!";
    assert IsAlpha(good[0]) && IsDigit(good[5]) && IsSpecial(good[8]);
    var short := "a1|";
    assert IsAlpha(short[0]) && IsDigit(short[1]) && IsSpecial(short[2]);
  }

  /** "Passw0rd" lacks only a special character. */
  lemma MissingSpecialExample()
    ensures !MeetsRequirements("Passw0rd")
  {
    var p := "Passw0rd";
    forall i | 0 <= i < |p| ensures !IsSpecial(p[i]) {
      assert p[i] in "Passw0rd";
    }
  }

  /** "Password!" lacks only a digit; "password" lacks a digit too. */
  lemma MissingDigitExamples()
    ensures !MeetsRequirements("Password!")
    ensures !MeetsRequirements("password")
  {
  }

  /** "12345678!" lacks only a letter. */
  lemma MissingLetterExample()
    ensures !MeetsRequirements("12345678!")
  {
  }

  /** A backslash is not a special character, so "a1\\" fails. */
  lemma BackslashIsNotSpecial()
    ensures !IsSpecial('\\')
    ensures !MeetsRequirements("a1\\")
  {
    var p := "a1\\";
    forall i | 0 <= i < |p| ensures !IsSpecial(p[i]) {
      assert p[i] in "a1\\";
    }
  }
}
