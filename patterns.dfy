/**
 * The regular expressions that the client and the server both test input
 * against, written as predicates over the characters of the string.
 * JavaScript's `$` without the `m` flag matches only at the end of the
 * input, so every pattern here must consume the whole string.
 */
module Patterns {
  import opened JsText

  /** `[^\s@]+` matches exactly `s[lo..hi]`. */
  predicate Segment(s: string, lo: int, hi: int)
    requires 0 <= lo <= hi <= |s|
  {
    lo < hi && forall k :: lo <= k < hi ==> !IsSpace(s[k]) && s[k] != '@'
  }

  /**
   * `/^[^\s@]+@[^\s@]+\.[^\s@]+$/`: some split of the string into three
   * runs of `[^\s@]` joined by an `@` and then a `.`.
   */
  ghost predicate EmailRegex(s: string) {
    exists at, dot :: 0 <= at < dot < |s| && s[at] == '@' && s[dot] == '.'
      && Segment(s, 0, at) && Segment(s, at + 1, dot) && Segment(s, dot + 1, |s|)
  }

  /**
   * Decides `EmailRegex` by locating the only `@` that a match can use and
   * then looking for a `.` with characters on both sides of it.
   */
  function MatchesEmail(s: string): (r: bool)
    ensures r <==> EmailRegex(s)
  {
    match IndexOf(s, '@')
    case None => false
    case Some(at) =>
      && Segment(s, 0, at)
      && at + 1 <= |s|
      && (forall k :: at + 1 <= k < |s| ==> !IsSpace(s[k]) && s[k] != '@')
      && exists dot :: at + 1 < dot < |s| - 1 && s[dot] == '.'
  }

  /** `\d{8}` at the end of the string after the leading digit at `k`. */
  predicate Subscriber(s: string, k: nat, leads: set<char>) {
    |s| == k + 9 && s[k] in leads && AllDigits(s[k + 1..])
  }

  /**
   * `/^(\+?254|0)?[leads]\d{8}$/`: the optional group is one of "+254",
   * "254", "0" or nothing, and nine characters follow it.
   * The server uses `[7]`, the client `[17]`.
   */
  predicate PhoneRegex(s: string, leads: set<char>) {
    || Subscriber(s, 0, leads)
    || (StartsWith(s, "0") && Subscriber(s, 1, leads))
    || (StartsWith(s, "254") && Subscriber(s, 3, leads))
    || (StartsWith(s, "+254") && Subscriber(s, 4, leads))
  }

  /** `/^\d{6}$/` */
  predicate SixDigits(s: string) {
    |s| == 6 && AllDigits(s)
  }

  /** Every phone number the server accepts is accepted by the client too. */
  lemma ServerPhoneIsClientPhone(s: string)
    requires PhoneRegex(s, {'7'})
    ensures PhoneRegex(s, {'1', '7'})
  {
  }

  /** The regex fixes the length: 9, 10, 12 or 13 characters. */
  lemma PhoneLength(s: string, leads: set<char>)
    requires PhoneRegex(s, leads)
    ensures |s| in {9, 10, 12, 13}
    ensures s[|s| - 9] in leads && AllDigits(s[|s| - 8..])
  {
  }
}
