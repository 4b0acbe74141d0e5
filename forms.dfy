/**
 * The form validation written inline in app.py: the share-count scan of
 * `buy` and `sell`, the amount, card-number and security-code scans of
 * `add_cash`, and the order of the checks in `register` and
 * `change_password`.
 */
module Forms {
  import opened Wrappers
  import opened Chars
  import opened Luhn
  import opened Password

  /** `for character in s: if not character.isdigit(): reject`. */
  method ScanDigits(s: string) returns (ok: bool)
    ensures ok <==> AllDigits(s)
  {
    for i := 0 to |s|
      invariant forall j :: 0 <= j < i ==> IsDigit(s[j])
    {
      if !IsDigit(s[i]) {
        return false;
      }
    }
    return true;
  }

  /** How a share-count field fares. */
  datatype ShareCount =
    | NotAnInteger   // some character is not a digit
    | Unparsable     // the empty string passes the scan, and then `int("")` raises
    | BelowOne       // all digits, but worth 0
    | Shares(n: nat)

  /**
   * The share-count check of `buy` and `sell`: the digit scan, then
   * `int(shares) < 1`. Its `"." in shares` test cannot fire once the scan
   * has passed.
   */
  method CheckShares(shares: string) returns (r: ShareCount)
    ensures r.NotAnInteger? <==> !AllDigits(shares)
    ensures r.Unparsable? <==> shares == ""
    ensures r.BelowOne? <==> shares != "" && AllDigits(shares) && DecimalValue(shares) == 0
    ensures r.Shares? <==> shares != "" && AllDigits(shares) && DecimalValue(shares) >= 1
    ensures r.Shares? ==> r.n == DecimalValue(shares)
  {
    var digits := ScanDigits(shares);
    if !digits {
      return NotAnInteger;
    }
    if shares == "" {
      return Unparsable;
    }
    var n := DecimalValue(shares);
    if n < 1 {
      return BelowOne;
    }
    return Shares(n);
  }

  /** The canonical spelling of any positive count is all digits, non-empty and worth the count. */
  lemma CanonicalShareCount(n: nat)
    requires n >= 1
    ensures var s := DecimalString(n); s != "" && AllDigits(s) && DecimalValue(s) == n
  {
    DecimalRoundTrip(n);
  }

  /** The number of occurrences of `c` in `s`. */
  function Count(s: string, c: char): nat
  {
    if s == [] then 0 else Count(s[..|s| - 1], c) + (if s[|s| - 1] == c then 1 else 0)
  }

  predicate IsAmountChar(c: char) { IsDigit(c) || c == '.' }

  /** What the amount scan of `add_cash` lets through: digits and at most one period. */
  predicate IsAmount(s: string) {
    (forall i :: 0 <= i < |s| ==> IsAmountChar(s[i])) && Count(s, '.') <= 1
  }

  /**
   * The amount scan of `add_cash`: an early exit on any character above '9'
   * or below '0' other than '.', and a counter of periods checked after the
   * loop.
   */
  method CheckAmount(amount: string) returns (ok: bool)
    ensures ok <==> IsAmount(amount)
  {
    var counter := 0;
    for i := 0 to |amount|
      invariant forall j :: 0 <= j < i ==> IsAmountChar(amount[j])
      invariant counter == Count(amount[..i], '.')
    {
      var character := amount[i];
      if character > '9' || (character < '0' && character != '.') {
        return false;
      }
      if character == '.' {
        counter := counter + 1;
      }
      assert amount[..i + 1][..i] == amount[..i];
    }
    assert amount[..|amount|] == amount;
    ok := counter <= 1;
  }

  lemma {:induction false} CountConcat(a: string, b: string, c: char)
    ensures Count(a + b, c) == Count(a, c) + Count(b, c)
  {
    if b == [] {
      assert a + b == a;
    } else {
      assert (a + b)[..|a + b| - 1] == a + b[..|b| - 1];
      CountConcat(a, b[..|b| - 1], c);
    }
  }

  lemma {:induction false} CountZero(s: string, c: char)
    ensures Count(s, c) == 0 <==> c !in s
  {
    if s != [] {
      CountZero(s[..|s| - 1], c);
      assert s == s[..|s| - 1] + [s[|s| - 1]];
    }
  }

  /** The index of the first `c` in `s`, or |s| when there is none. */
  function IndexOf(s: string, c: char): (k: nat)
    ensures k <= |s|
    ensures k < |s| ==> s[k] == c
    ensures forall j :: 0 <= j < k ==> s[j] != c
  {
    if s == [] then 0
    else if s[0] == c then 0
    else 1 + IndexOf(s[1..], c)
  }

  /** Counting around one occurrence of `c`. */
  lemma CountAround(s: string, k: nat, c: char)
    requires k < |s| && s[k] == c
    ensures Count(s, c) == Count(s[..k], c) + 1 + Count(s[k + 1..], c)
  {
    assert s == (s[..k] + [c]) + s[k + 1..];
    CountConcat(s[..k] + [c], s[k + 1..], c);
    CountConcat(s[..k], [c], c);
    assert [c][..0] == [];
  }

  /** Amount characters other than the period are digits. */
  lemma NoPeriodMeansDigits(t: string)
    requires forall i :: 0 <= i < |t| ==> IsAmountChar(t[i])
    requires '.' !in t
    ensures AllDigits(t)
  {
    forall i | 0 <= i < |t| ensures IsDigit(t[i]) {
      assert t[i] in t;
    }
  }

  /**
   * An amount is an all-digit string, or two all-digit strings around one
   * period (either side may be empty).
   */
  lemma AmountSplit(s: string)
    requires IsAmount(s)
    ensures var k := IndexOf(s, '.');
      AllDigits(s[..k]) && (k < |s| ==> AllDigits(s[k + 1..]))
  {
    var k := IndexOf(s, '.');
    var before := s[..k];
    assert forall i :: 0 <= i < |before| ==> before[i] == s[i];
    NoPeriodMeansDigits(before);
    if k < |s| {
      var after := s[k + 1..];
      assert forall i :: 0 <= i < |after| ==> after[i] == s[k + 1 + i];
      CountAround(s, k, '.');
      CountZero(after, '.');
      NoPeriodMeansDigits(after);
    }
  }

  /** The digits of an amount with its period dropped. */
  function Unpointed(s: string): string
  {
    if s == [] then [] else (if s[0] == '.' then [] else [s[0]]) + Unpointed(s[1..])
  }

  /** The number of digits after the period (0 without one). */
  function FractionDigits(s: string): nat
  {
    var k := IndexOf(s, '.');
    if k < |s| then |s| - k - 1 else 0
  }

  lemma {:induction false} UnpointedConcat(a: string, b: string)
    ensures Unpointed(a + b) == Unpointed(a) + Unpointed(b)
  {
    if a != [] {
      assert (a + b)[1..] == a[1..] + b;
      UnpointedConcat(a[1..], b);
    } else {
      assert a + b == b;
    }
  }

  lemma {:induction false} UnpointedNoPeriod(s: string)
    requires '.' !in s
    ensures Unpointed(s) == s
  {
    if s != [] {
      assert s[1..] == s[|[s[0]]|..];
      assert forall c :: c in s[1..] ==> c in s;
      UnpointedNoPeriod(s[1..]);
      assert s == [s[0]] + s[1..];
    }
  }

  lemma DigitsHaveNoPeriod(t: string)
    requires AllDigits(t)
    ensures '.' !in t
  {
    forall j | 0 <= j < |t| ensures t[j] != '.' {
      assert IsDigit(t[j]);
    }
  }

  /** Dropping the only period of a string joins the two sides. */
  lemma UnpointedAround(s: string, k: nat)
    requires k < |s| && s[k] == '.' && '.' !in s[..k] && '.' !in s[k + 1..]
    ensures Unpointed(s) == s[..k] + s[k + 1..]
  {
    var before, rest, after := s[..k], s[k..], s[k + 1..];
    UnpointedNoPeriod(before);
    UnpointedNoPeriod(after);
    assert rest[0] == '.' && rest[1..] == after;
    assert Unpointed(rest) == Unpointed(after);
    assert s == before + rest;
    UnpointedConcat(before, rest);
  }

  /** Dropping the period of an accepted amount leaves the digits on either side of it. */
  lemma UnpointedAmount(s: string)
    requires IsAmount(s)
    ensures var k := IndexOf(s, '.');
      Unpointed(s) == s[..k] + (if k < |s| then s[k + 1..] else "")
  {
    var k := IndexOf(s, '.');
    AmountSplit(s);
    DigitsHaveNoPeriod(s[..k]);
    if k < |s| {
      DigitsHaveNoPeriod(s[k + 1..]);
      UnpointedAround(s, k);
    } else {
      assert s[..k] == s;
      UnpointedNoPeriod(s);
    }
  }

  lemma RealShift(x: real, y: real, z: real)
    requires z >= 1.0
    ensures (x + y / z) * z == x * z + y
  {
  }

  /** `v`, shifted left by `places` decimal places, is the integer `n`. */
  predicate ShiftsTo(v: real, places: nat, n: nat) {
    v * Pow10(places) as real == n as real
  }

  lemma ShiftBack(w: nat, f: nat, places: nat, n: nat, v: real)
    requires n == w * Pow10(places) + f
    requires v == w as real + f as real / Pow10(places) as real
    ensures ShiftsTo(v, places, n)
  {
    var p := Pow10(places);
    RealShift(w as real, f as real, p as real);
    assert (w * p) as real == w as real * p as real;
  }

  /** The whole part plus the fraction part scaled down by its number of digits. */
  function PointValue(whole: string, fraction: string): (v: real)
    requires AllDigits(whole) && AllDigits(fraction)
    ensures v >= 0.0
  {
    DecimalValue(whole) as real + DecimalValue(fraction) as real / Pow10(|fraction|) as real
  }

  /** Shifted left past the fraction, the point value is the integer the two parts spell together. */
  lemma PointValueScaled(whole: string, fraction: string)
    requires AllDigits(whole) && AllDigits(fraction)
    ensures AllDigits(whole + fraction)
    ensures ShiftsTo(PointValue(whole, fraction), |fraction|, DecimalValue(whole + fraction))
  {
    DecimalValueConcat(whole, fraction);
    ShiftBack(DecimalValue(whole), DecimalValue(fraction), |fraction|, DecimalValue(whole + fraction),
              PointValue(whole, fraction));
  }

  /**
   * `float(amount)` on a string that passed the amount scan: the digits
   * before the period plus the digits after it scaled down. The empty string
   * and a lone period have no digits, and `float` raises on them. Otherwise
   * the value, shifted left by the number of fraction digits, is the integer
   * the digits spell with the period dropped.
   */
  function AmountValue(amount: string): (v: Option<real>)
    requires IsAmount(amount)
    ensures v.None? <==> amount == "" || amount == "."
    ensures v.Some? ==> v.value >= 0.0
    ensures AllDigits(amount) && amount != "" ==> v == Some(DecimalValue(amount) as real)
    ensures AllDigits(Unpointed(amount))
    ensures v.Some? ==> ShiftsTo(v.value, FractionDigits(amount), DecimalValue(Unpointed(amount)))
  {
    AmountSplit(amount);
    UnpointedAmount(amount);
    var k := IndexOf(amount, '.');
    var whole := amount[..k];
    var fraction := if k < |amount| then amount[k + 1..] else "";
    PointValueScaled(whole, fraction);
    assert Unpointed(amount) == whole + fraction;
    assert FractionDigits(amount) == |fraction|;
    assert k == |amount| ==> whole == amount && whole + fraction == amount;
    if whole == "" && fraction == "" then None
    else Some(PointValue(whole, fraction))
  }

  /** The card-number check of `add_cash`: the digit scan, then the checksum modulo 10. */
  method CheckCard(cardNo: string) returns (ok: bool)
    ensures ok <==> AllDigits(cardNo) && LuhnValid(cardNo)
  {
    var digits := ScanDigits(cardNo);
    if !digits {
      return false;
    }
    var sum := Checksum(cardNo);
    ok := sum % 10 == 0;
  }

  /** The security-code check of `add_cash`: the digit scan, then a length of 3 or 4. */
  method CheckCode(code: string) returns (ok: bool)
    ensures ok <==> AllDigits(code) && 3 <= |code| <= 4
  {
    var digits := ScanDigits(code);
    if !digits {
      return false;
    }
    ok := !(|code| < 3 || |code| > 4);
  }

  /** The first check that fails on a registration or password-change form. */
  datatype PasswordVerdict =
    | FieldsBlank
    | IncorrectPassword
    | PasswordsDiffer
    | TooShort
    | TooWeak
    | UsernameTaken
    | Accepted

  /**
   * The checks of `register`, in order: blank fields, the confirmation, the
   * length, the character classes, then the scan of existing usernames.
   */
  function RegisterCheck(username: string, password: string, confirmation: string, existing: seq<string>): (r: PasswordVerdict)
    ensures r == FieldsBlank <==> password == "" || username == "" || confirmation == ""
    ensures r == PasswordsDiffer <==>
      password != "" && username != "" && confirmation != "" && password != confirmation
    ensures r == TooShort <==>
      password != "" && username != "" && confirmation != "" && password == confirmation &&
      |password| < 8
    ensures r == TooWeak <==>
      password != "" && username != "" && confirmation != "" && password == confirmation &&
      |password| >= 8 && !MeetsRequirements(password)
    ensures r == UsernameTaken <==>
      password != "" && username != "" && confirmation != "" && password == confirmation &&
      |password| >= 8 && MeetsRequirements(password) && username in existing
    ensures r == Accepted <==>
      username != "" && password != "" && confirmation != "" && password == confirmation &&
      |password| >= 8 && MeetsRequirements(password) && username !in existing
    ensures r != IncorrectPassword
  {
    if password == "" || username == "" || confirmation == "" then FieldsBlank
    else if password != confirmation then PasswordsDiffer
    else if |password| < 8 then TooShort
    else if !MeetsRequirements(password) then TooWeak
    else if username in existing then UsernameTaken
    else Accepted
  }

  /**
   * The checks of `change_password`, in order. `oldPasswordMatches` is the
   * verdict of the password-hash library on the old password.
   */
  function ChangePasswordCheck(oldPassword: string, newPassword: string, confirm: string, oldPasswordMatches: bool): (r: PasswordVerdict)
    ensures r == FieldsBlank <==> newPassword == "" || oldPassword == "" || confirm == ""
    ensures r == IncorrectPassword <==>
      newPassword != "" && oldPassword != "" && confirm != "" && !oldPasswordMatches
    ensures r == PasswordsDiffer <==>
      newPassword != "" && oldPassword != "" && confirm != "" && oldPasswordMatches &&
      newPassword != confirm
    ensures r == TooShort <==>
      newPassword != "" && oldPassword != "" && confirm != "" && oldPasswordMatches &&
      newPassword == confirm && |newPassword| < 8
    ensures r == TooWeak <==>
      newPassword != "" && oldPassword != "" && confirm != "" && oldPasswordMatches &&
      newPassword == confirm && |newPassword| >= 8 && !MeetsRequirements(newPassword)
    ensures r == Accepted <==>
      oldPassword != "" && newPassword != "" && confirm != "" && oldPasswordMatches &&
      newPassword == confirm && |newPassword| >= 8 && MeetsRequirements(newPassword)
    ensures r != UsernameTaken
  {
    if newPassword == "" || oldPassword == "" || confirm == "" then FieldsBlank
    else if !oldPasswordMatches then IncorrectPassword
    else if newPassword != confirm then PasswordsDiffer
    else if |newPassword| < 8 then TooShort
    else if !MeetsRequirements(newPassword) then TooWeak
    else Accepted
  }

  /**
   * The two forms apply one password policy: a new password either form
   * accepts is at least 8 characters long and meets the character-class
   * requirements.
   */
  lemma PasswordPolicyAgrees(username: string, password: string, existing: seq<string>, oldPassword: string)
    requires username != "" && username !in existing && oldPassword != ""
    ensures RegisterCheck(username, password, password, existing) == Accepted
        <==> ChangePasswordCheck(oldPassword, password, password, true) == Accepted
    ensures RegisterCheck(username, password, password, existing) == Accepted
        ==> |password| >= 8 && Has(password, Letter) && Has(password, Digit) && Has(password, Special)
  {
  }
}
