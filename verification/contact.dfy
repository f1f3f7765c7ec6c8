/** Contact data validation: the phone number validators of the contact data
    shared by customers and employees, a pattern `^\+?\d{9,20}$` searched
    with Python's regular expressions plus a 20 character length limit. */
module Contact {
  import opened Common

  predicate IsDigit(c: char) {
    '0' <= c <= '9'
  }

  predicate AllDigits(s: string) {
    forall i :: 0 <= i < |s| ==> IsDigit(s[i])
  }

  /** The text matches an optional `+` and then 9 to 20 digits, up to its
      very end. */
  predicate MatchesToEnd(s: string) {
    var digits := if |s| > 0 && s[0] == '+' then s[1..] else s;
    9 <= |digits| <= 20 && AllDigits(digits)
  }

  /** The pattern as searched: Python's `$` matches at the end of the text
      and also just before a newline that ends it. */
  predicate MatchesAsWritten(s: string) {
    MatchesToEnd(s) || (|s| > 0 && s[|s| - 1] == '\n' && MatchesToEnd(s[..|s| - 1]))
  }

  /** The phone validators as intended: the pattern anchored at the very end
      of the text, and the length limit. An accepted number is 9 to 20
      characters long, every character of it is a digit except possibly a
      leading `+`, and at least 9 digits follow a `+`. */
  function ValidatePhone(s: string): (r: Outcome)
    ensures r.Pass? <==>
              9 <= |s| <= 20 &&
              (forall i :: 0 <= i < |s| ==> IsDigit(s[i]) || (i == 0 && s[i] == '+')) &&
              (s[0] == '+' ==> |s| >= 10)
    ensures r.Fail? ==> r.error == InvalidPhone
  {
    PhoneShape(s);
    if MatchesToEnd(s) && |s| <= 20 then Pass else Fail(InvalidPhone)
  }

  /** The phone validators as written: the pattern and the length limit. They
      accept what the intended ones accept, and also such a text followed by
      one final newline, within the same 20 characters. */
  function ValidatePhoneAsWritten(s: string): (r: Outcome)
    ensures r.Pass? <==> |s| <= 20 && (ValidatePhone(s).Pass? ||
                                       (|s| > 0 && s[|s| - 1] == '\n' && ValidatePhone(s[..|s| - 1]).Pass?))
    ensures r.Fail? ==> r.error == InvalidPhone
  {
    PhoneShape(s);
    PhoneShape(if |s| > 0 then s[..|s| - 1] else s);
    if MatchesAsWritten(s) && |s| <= 20 then Pass else Fail(InvalidPhone)
  }

  /** The pattern with the length limit, character by character: 9 to 20
      characters, all digits except possibly a leading `+`, at least 9 digits
      after a `+`. */
  lemma PhoneShape(s: string)
    ensures MatchesToEnd(s) && |s| <= 20 <==>
              9 <= |s| <= 20 &&
              (forall i :: 0 <= i < |s| ==> IsDigit(s[i]) || (i == 0 && s[i] == '+')) &&
              (s[0] == '+' ==> |s| >= 10)
  {
    if |s| > 0 && s[0] == '+' {
      var d := s[1..];
      assert forall i :: 1 <= i < |s| ==> s[i] == d[i - 1];
    }
  }

  /** The length limit is stricter than the pattern after a `+`: a `+` with
      20 digits matches the pattern but is refused, so at most 19 digits
      follow a `+`. */
  lemma PlusLeavesNineteenDigits(s: string)
    requires |s| > 0 && s[0] == '+'
    ensures ValidatePhone(s).Pass? ==> |s[1..]| <= 19
    ensures ValidatePhone("+12345678901234567890").Fail?
    ensures MatchesToEnd("+12345678901234567890")
  {
    assert |"+12345678901234567890"| == 21;
  }

  /** The intended validator accepts exactly what the written one accepts,
      minus the texts that end in a newline. */
  lemma ValidatePhoneRefines(s: string)
    ensures ValidatePhone(s).Pass? ==> ValidatePhoneAsWritten(s).Pass?
    ensures ValidatePhoneAsWritten(s).Pass? && (|s| == 0 || s[|s| - 1] != '\n') ==> ValidatePhone(s).Pass?
    ensures ValidatePhone(s).Pass? ==> |s| > 0 && s[|s| - 1] != '\n'
  {
    if MatchesToEnd(s) {
      var digits := if |s| > 0 && s[0] == '+' then s[1..] else s;
      assert digits[|digits| - 1] == s[|s| - 1];
    }
  }

  /** A number followed by a newline passes the validators as written and
      is refused by the intended ones. */
  lemma TrailingNewlineAccepted()
    ensures ValidatePhoneAsWritten("123456789\n").Pass?
    ensures ValidatePhone("123456789\n").Fail?
  {
    var s := "123456789\n";
    assert s[..|s| - 1] == "123456789";
    assert !IsDigit(s[9]);
  }
}
