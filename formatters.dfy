/**
 * The display formatters of the mobile app
 * (KilimoMobileApp/src/utils/formatters.ts): phone numbers, truncation,
 * word capitalisation and e-mail masking.
 */
module Formatters {
  import opened Common
  import opened JsText
  import Patterns

  /**
   * `formatPhoneNumber`: the digits of the input rewritten to "+254..."
   * when they start with 254, 0, 7 or 1; any other input comes back exactly
   * as given, not even cleaned.
   */
  function FormatPhoneNumber(phone: string): (r: string)
    ensures r != phone ==> StartsWith(r, "+254")
  {
    var cleaned := KeepDigits(phone);
    if StartsWith(cleaned, "254") then "+" + cleaned
    else if StartsWith(cleaned, "0") then "+254" + cleaned[1..]
    else if StartsWith(cleaned, "7") || StartsWith(cleaned, "1") then "+254" + cleaned
    else phone
  }

  /** A rewritten number is "+254" followed by digits only. */
  predicate International(s: string) {
    StartsWith(s, "+254") && AllDigits(s[1..])
  }

  lemma FormatPhoneNumberShape(phone: string)
    ensures var r := FormatPhoneNumber(phone);
      r == phone || International(r)
    ensures var cleaned := KeepDigits(phone);
      !(StartsWith(cleaned, "254") || StartsWith(cleaned, "0") || StartsWith(cleaned, "7") || StartsWith(cleaned, "1"))
      ==> FormatPhoneNumber(phone) == phone
  {
    var cleaned := KeepDigits(phone);
    assert AllDigits(cleaned);
    if StartsWith(cleaned, "254") {
      var rest := cleaned[3..];
      assert cleaned == "254" + rest;
      assert "+" + cleaned == "+254" + rest;
      CountryPrefixed(rest);
    } else if StartsWith(cleaned, "0") {
      CountryPrefixed(cleaned[1..]);
    } else if StartsWith(cleaned, "7") || StartsWith(cleaned, "1") {
      CountryPrefixed(cleaned);
    }
  }

  lemma CountryPrefixed(d: string)
    requires AllDigits(d)
    ensures International("+254" + d)
  {
    var r := "+254" + d;
    assert r[..4] == "+254";
    assert r[1..] == "254" + d;
    forall i | 0 <= i < |r[1..]|
      ensures IsDigit(r[1..][i])
    {
      if i >= 3 {
        assert r[1..][i] == d[i - 3];
      }
    }
  }

  /** The digits of "+" followed by digits are those digits. */
  lemma KeepDigitsOfInternational(digits: string)
    requires AllDigits(digits)
    ensures KeepDigits("+" + digits) == digits
  {
    FilterAppend("+", digits, IsDigit);
    assert Filter("+", IsDigit) == Filter([], IsDigit) == [];
  }

  /** Formatting a formatted number changes nothing. */
  lemma FormatPhoneNumberIdempotent(phone: string)
    ensures FormatPhoneNumber(FormatPhoneNumber(phone)) == FormatPhoneNumber(phone)
  {
    FormatPhoneNumberShape(phone);
    var r := FormatPhoneNumber(phone);
    if r != phone {
      assert r == "+" + r[1..];
      KeepDigitsOfInternational(r[1..]);
      assert StartsWith(KeepDigits(r), "254");
    }
  }

  /** A bare subscriber number, led by 7 or 1, gets the country code. */
  lemma FormatSubscriber(d: string)
    requires AllDigits(d) && d != [] && (d[0] == '7' || d[0] == '1')
    ensures FormatPhoneNumber(d) == "+254" + d
  {
    assert KeepDigits(d) == d;
  }

  /** A number with the trunk prefix 0 has the 0 replaced by the country code. */
  lemma FormatTrunk(d: string)
    requires AllDigits(d)
    ensures FormatPhoneNumber("0" + d) == "+254" + d
  {
    var p := "0" + d;
    assert AllDigits(p);
    assert KeepDigits(p) == p;
    assert p[1..] == d;
  }

  /** A number starting with the country code gets a plus sign. */
  lemma FormatCountryCode(d: string)
    requires AllDigits(d)
    ensures FormatPhoneNumber("254" + d) == "+254" + d
  {
    var p := "254" + d;
    assert AllDigits(p) by {
      assert forall i :: 3 <= i < |p| ==> p[i] == d[i - 3];
    }
    assert KeepDigits(p) == p;
    assert p[..3] == "254";
    assert "+" + p == "+254" + d;
  }

  /** A number in international form comes back as it was. */
  lemma FormatInternationalForm(d: string)
    requires AllDigits(d)
    ensures FormatPhoneNumber("+254" + d) == "+254" + d
  {
    var digits := "254" + d;
    assert AllDigits(digits);
    assert "+254" + d == "+" + digits;
    KeepDigitsOfInternational(digits);
    assert digits[..3] == "254";
  }

  /**
   * Every number the client validator accepts (whitespace already removed)
   * is rewritten to "+254" and its last nine characters.
   */
  lemma FormatValidPhone(phone: string)
    requires Patterns.PhoneRegex(phone, {'1', '7'})
    ensures FormatPhoneNumber(phone) == "+254" + phone[|phone| - 9..]
  {
    Patterns.PhoneLength(phone, {'1', '7'});
    var tail := phone[|phone| - 9..];
    assert AllDigits(tail) by {
      assert tail == [phone[|phone| - 9]] + phone[|phone| - 8..];
    }
    if |phone| == 9 {
      assert phone == tail;
      FormatSubscriber(tail);
    } else if |phone| == 10 {
      assert phone == "0" + tail;
      FormatTrunk(tail);
    } else if |phone| == 12 {
      assert phone == "254" + tail;
      FormatCountryCode(tail);
    } else {
      assert phone == "+254" + tail;
      FormatInternationalForm(tail);
    }
  }

  function Max(a: int, b: int): int {
    if a < b then b else a
  }

  /**
   * `truncateText`: the text itself when it fits, otherwise its first
   * `maxLength` characters and "..." (`substring` treats a negative length as 0).
   */
  function TruncateText(text: string, maxLength: int): (r: string)
    ensures |text| <= maxLength ==> r == text
    ensures |text| > maxLength ==>
              |r| == Max(maxLength, 0) + 3 && r[..|r| - 3] == text[..|r| - 3] && r[|r| - 3..] == "..."
    ensures |r| <= Max(maxLength, 0) + 3
  {
    if |text| <= maxLength then text
    else text[..Max(maxLength, 0)] + "..."
  }

  /** `\b\w`: a word character at position `i` with no word character before it. */
  predicate WordStart(s: string, i: int)
    requires 0 <= i < |s|
  {
    IsWordChar(s[i]) && (i == 0 || !IsWordChar(s[i - 1]))
  }

  /**
   * `capitalizeWords`: `replace(/\b\w/g, toUpperCase)`. Only lower-case
   * letters that start a word change, and they become upper case.
   */
  function CapitalizeWords(text: string): (r: string)
    ensures |r| == |text|
    ensures forall i :: 0 <= i < |text| && r[i] != text[i] ==>
      WordStart(text, i) && IsLower(text[i]) && r[i] as int == text[i] as int - 32
    ensures forall i :: 0 <= i < |text| && WordStart(text, i) ==> !IsLower(r[i])
  {
    seq(|text|, i requires 0 <= i < |text| => if WordStart(text, i) then ToUpper(text[i]) else text[i])
  }

  /** Capitalising twice is capitalising once. */
  lemma CapitalizeWordsIdempotent(text: string)
    ensures CapitalizeWords(CapitalizeWords(text)) == CapitalizeWords(text)
  {
    var once := CapitalizeWords(text);
    assert forall i :: 0 <= i < |text| ==> IsWordChar(once[i]) == IsWordChar(text[i]);
    assert forall i :: 0 <= i < |text| ==> WordStart(once, i) == WordStart(text, i);
  }

  /** `email.split("@")[0]`: everything before the first "@". */
  function Username(email: string): string {
    match IndexOf(email, '@')
    case None => email
    case Some(at) => email[..at]
  }

  /** `email.split("@")[1]` */
  function Domain(email: string): Option<string> {
    SecondField(email, '@')
  }

  function Min(a: int, b: int): int {
    if a < b then a else b
  }

  /**
   * `maskEmail`: the input unchanged when either field is empty or missing,
   * otherwise the first three characters of the user name, "***@" and the
   * second field; whatever follows a second "@" is dropped.
   */
  function MaskEmail(email: string): (r: string)
    ensures Username(email) == "" || !Truthy(Domain(email)) ==> r == email
    ensures Username(email) != "" && Truthy(Domain(email)) ==>
              var shown := "***@" + Domain(email).value;
              |shown| <= |r| && r[|r| - |shown|..] == shown
  {
    var user := Username(email);
    var domain := Domain(email);
    if user == "" || !Truthy(domain) then email
    else user[..Min(3, |user|)] + "***" + "@" + domain.value
  }

  predicate NoAt(s: string) {
    forall k :: 0 <= k < |s| ==> s[k] != '@'
  }

  lemma {:induction false} IndexOfAfter(prefix: string, rest: string)
    requires NoAt(prefix)
    ensures IndexOf(prefix + "@" + rest, '@') == Some(|prefix|)
  {
    var s := prefix + "@" + rest;
    assert s[|prefix|] == '@';
    assert forall k :: 0 <= k < |prefix| ==> s[k] == prefix[k];
  }

  /**
   * Reading a masked address back gives the masked user name and the very
   * domain that was shown: masking keeps the domain and hides all but three
   * characters of the user name.
   */
  lemma MaskEmailFields(email: string)
    requires Username(email) != "" && Truthy(Domain(email))
    ensures var user := Username(email);
      && Username(MaskEmail(email)) == user[..Min(3, |user|)] + "***"
      && Domain(MaskEmail(email)) == Domain(email)
  {
    var user := Username(email);
    var domain := Domain(email).value;
    var shown := user[..Min(3, |user|)] + "***";
    var at :| IndexOf(email, '@') == Some(at);
    assert NoAt(user);
    assert NoAt(shown);
    IndexOfAfter(shown, domain);
    var r := MaskEmail(email);
    assert r == shown + "@" + domain;
    assert r[|shown| + 1..] == domain;
    assert NoAt(domain);
  }

  /** Masking an address whose user name has at least three characters a second time changes nothing. */
  lemma MaskEmailIdempotent(email: string)
    requires |Username(email)| >= 3 && Truthy(Domain(email))
    ensures MaskEmail(MaskEmail(email)) == MaskEmail(email)
  {
    MaskEmailFields(email);
  }
}
