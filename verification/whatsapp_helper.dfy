/** The pure part of `sendWhatsAppMessage` in utils/whatsappHelper.js: the
    phone check, the digit filter, and the two URLs it opens. The message
    arrives already encoded by `encodeURIComponent`, and whether the app URL
    is supported is an input. */
module WhatsappHelper {
  import opened Common

  const APP_PREFIX := "whatsapp://send?text="
  const APP_PHONE := "&phone=91"
  const BROWSER_PREFIX := "https://wa.me/91"
  const BROWSER_TEXT := "?text="

  predicate IsDigit(c: char)
  {
    '0' <= c <= '9'
  }

  /** `phone.replace(/[^0-9]/g, "")`. */
  function CleanPhone(phone: string): (r: string)
    ensures |r| <= |phone|
    ensures forall i :: 0 <= i < |r| ==> IsDigit(r[i])
  {
    if phone == [] then []
    else (if IsDigit(phone[0]) then [phone[0]] else []) + CleanPhone(phone[1..])
  }

  /** The filter works character by character, so it keeps the order of
      the digits. */
  lemma {:induction false} CleanPhoneAppend(a: string, b: string)
    ensures CleanPhone(a + b) == CleanPhone(a) + CleanPhone(b)
  {
    if a == [] {
      assert a + b == b;
    } else {
      assert (a + b)[1..] == a[1..] + b;
      CleanPhoneAppend(a[1..], b);
    }
  }

  /** No digit is dropped and nothing but digits is kept: every digit occurs
      in the result as often as in the input, every other character never. */
  lemma {:induction false} CleanPhoneKeepsDigits(phone: string)
    ensures forall c :: IsDigit(c) ==> multiset(CleanPhone(phone))[c] == multiset(phone)[c]
    ensures forall c :: !IsDigit(c) ==> multiset(CleanPhone(phone))[c] == 0
  {
    if phone != [] {
      CleanPhoneKeepsDigits(phone[1..]);
      assert phone == [phone[0]] + phone[1..];
    }
  }

  /** A number that is only digits is left as it is; in particular the
      filter is idempotent. */
  lemma {:induction false} CleanPhoneOfDigits(phone: string)
    requires forall i :: 0 <= i < |phone| ==> IsDigit(phone[i])
    ensures CleanPhone(phone) == phone
  {
    if phone != [] {
      CleanPhoneOfDigits(phone[1..]);
    }
  }

  function AppUrl(encodedMessage: string, cleanPhone: string): string
  {
    APP_PREFIX + encodedMessage + APP_PHONE + cleanPhone
  }

  function BrowserUrl(encodedMessage: string, cleanPhone: string): string
  {
    BROWSER_PREFIX + cleanPhone + BROWSER_TEXT + encodedMessage
  }

  /** The URL `sendWhatsAppMessage` opens, or None for the "no phone" alert
      when the phone is missing or empty. */
  function WhatsAppTarget(phone: Option<string>, encodedMessage: string, appSupported: bool): (url: Option<string>)
    ensures url.None? <==> !Filled(phone)
    ensures url.Some? && appSupported ==>
      && APP_PREFIX + encodedMessage + APP_PHONE <= url.value
      && |url.value| == |APP_PREFIX| + |encodedMessage| + |APP_PHONE| + |CleanPhone(phone.value)|
      && url.value[|url.value| - |CleanPhone(phone.value)|..] == CleanPhone(phone.value)
    ensures url.Some? && !appSupported ==>
      && BROWSER_PREFIX + CleanPhone(phone.value) + BROWSER_TEXT <= url.value
      && |url.value| == |BROWSER_PREFIX| + |CleanPhone(phone.value)| + |BROWSER_TEXT| + |encodedMessage|
      && url.value[|url.value| - |encodedMessage|..] == encodedMessage
  {
    if !Filled(phone) then None
    else
      var clean := CleanPhone(phone.value);
      if appSupported then
        var u := AppUrl(encodedMessage, clean);
        assert u == (APP_PREFIX + encodedMessage + APP_PHONE) + clean;
        assert u[|u| - |clean|..] == clean;
        Some(u)
      else
        var u := BrowserUrl(encodedMessage, clean);
        assert u == (BROWSER_PREFIX + clean + BROWSER_TEXT) + encodedMessage;
        Some(u)
  }

  /** The digits between the country code and the first '?'. */
  function PhoneOfBrowserUrl(url: string): string
    requires BROWSER_PREFIX <= url
  {
    TakeUntilQuery(url[|BROWSER_PREFIX|..])
  }

  function TakeUntilQuery(s: string): (r: string)
    ensures r <= s
  {
    if s == [] || s[0] == '?' then [] else [s[0]] + TakeUntilQuery(s[1..])
  }

  lemma {:induction false} TakeUntilQueryDigits(digits: string, rest: string)
    requires forall i :: 0 <= i < |digits| ==> IsDigit(digits[i])
    requires |rest| > 0 && rest[0] == '?'
    ensures TakeUntilQuery(digits + rest) == digits
  {
    if digits == [] {
      assert digits + rest == rest;
    } else {
      assert (digits + rest)[1..] == digits[1..] + rest;
      TakeUntilQueryDigits(digits[1..], rest);
    }
  }

  /** The fallback URL carries the cleaned number intact: reading the number
      back from it gives the cleaned number, whatever the message is. */
  lemma BrowserUrlPhoneRoundTrip(phone: string, encodedMessage: string)
    ensures PhoneOfBrowserUrl(BrowserUrl(encodedMessage, CleanPhone(phone))) == CleanPhone(phone)
  {
    var clean := CleanPhone(phone);
    var u := BrowserUrl(encodedMessage, clean);
    assert u == BROWSER_PREFIX + (clean + (BROWSER_TEXT + encodedMessage));
    assert u[|BROWSER_PREFIX|..] == clean + (BROWSER_TEXT + encodedMessage);
    TakeUntilQueryDigits(clean, BROWSER_TEXT + encodedMessage);
  }
}
