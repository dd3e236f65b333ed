/**
 * Phone numbers: `normalizarTelefono` (strip everything but ASCII digits, then give a
 * Spanish 9-digit mobile number its `34` country code) and `esTelefonoValido`
 * (the bare mobile form or the `34`-prefixed mobile form).
 */
module Phone {

  /** What JavaScript's `\d` matches: the ASCII digits only. */
  predicate IsDigit(c: char)
  {
    '0' <= c <= '9'
  }

  predicate AllDigits(s: string)
  {
    forall i :: 0 <= i < |s| ==> IsDigit(s[i])
  }

  /** `s.replace(/\D/g, "")`: the digits of `s`, in order. */
  function StripNonDigits(s: string): (r: string)
    ensures AllDigits(r)
    ensures |r| <= |s|
  {
    if s == [] then []
    else if IsDigit(s[0]) then [s[0]] + StripNonDigits(s[1..])
    else StripNonDigits(s[1..])
  }

  /** Stripping distributes over concatenation: digits keep their order. */
  lemma {:induction false} StripAppend(a: string, b: string)
    ensures StripNonDigits(a + b) == StripNonDigits(a) + StripNonDigits(b)
  {
    if a == [] {
      assert a + b == b;
    } else {
      assert (a + b)[0] == a[0] && (a + b)[1..] == a[1..] + b;
      StripAppend(a[1..], b);
    }
  }

  /** A string of digits is its own digit string. */
  lemma {:induction false} StripOfDigits(s: string)
    requires AllDigits(s)
    ensures StripNonDigits(s) == s
  {
    if s != [] {
      StripOfDigits(s[1..]);
    }
  }

  /** A string with no digit at all strips to the empty string. */
  lemma {:induction false} StripOfNonDigits(s: string)
    requires forall i :: 0 <= i < |s| ==> !IsDigit(s[i])
    ensures StripNonDigits(s) == ""
  {
    if s != [] {
      StripOfNonDigits(s[1..]);
    }
  }

  /** `/^[67]\d{8}$/`: nine digits, the first a 6 or a 7. */
  predicate IsMobile(s: string)
  {
    |s| == 9 && (s[0] == '6' || s[0] == '7') && AllDigits(s)
  }

  /** `/^34[67]\d{8}$/`: the country code 34 followed by a mobile number. */
  predicate IsPrefixed(s: string)
  {
    |s| == 11 && s[0] == '3' && s[1] == '4' && IsMobile(s[2..])
  }

  /**
   * `normalizarTelefono(tel)`: digits only; a bare mobile number gains the `34`
   * country code and every other digit string is returned as it is.
   */
  function Normalize(tel: string): (r: string)
    ensures AllDigits(r)
    ensures r == "" <==> StripNonDigits(tel) == ""
    ensures IsMobile(StripNonDigits(tel)) ==> r == "34" + StripNonDigits(tel) && IsPrefixed(r)
    ensures !IsMobile(StripNonDigits(tel)) ==> r == StripNonDigits(tel) && !IsMobile(r)
  {
    if tel == "" then ""
    else
      var numero := StripNonDigits(tel);
      if IsMobile(numero) then "34" + numero else numero
  }

  /** `34` is prepended exactly when the stripped digits form a bare mobile number. */
  lemma PrependsIff(tel: string)
    ensures Normalize(tel) == "34" + StripNonDigits(tel) <==> IsMobile(StripNonDigits(tel))
  {
    if !IsMobile(StripNonDigits(tel)) {
      assert |Normalize(tel)| != |"34" + StripNonDigits(tel)|;
    }
  }

  /** No normalised number is a bare mobile number: those always gain their prefix. */
  lemma NormalizedNotMobile(tel: string)
    ensures !IsMobile(Normalize(tel))
  {
  }

  /** Normalising twice is normalising once. */
  lemma NormalizeIdempotent(tel: string)
    ensures Normalize(Normalize(tel)) == Normalize(tel)
  {
    var r := Normalize(tel);
    StripOfDigits(r);
    NormalizedNotMobile(tel);
  }

  /** A normalised number that is valid has the canonical shape: 11 digits starting `34`. */
  lemma ValidNormalizedIsPrefixed(tel: string)
    requires IsValid(Normalize(tel))
    ensures IsPrefixed(Normalize(tel))
    ensures |Normalize(tel)| == 11 && Normalize(tel)[..2] == "34" && AllDigits(Normalize(tel))
  {
    NormalizedNotMobile(tel);
  }

  /**
   * A valid number normalises to its canonical `34` form: a bare mobile number gains
   * the prefix, a prefixed one is kept. So normalising keeps a valid number valid.
   */
  lemma NormalizeValid(t: string)
    requires IsValid(t)
    ensures IsPrefixed(Normalize(t)) && IsValid(Normalize(t))
    ensures Normalize(t) == if IsMobile(t) then "34" + t else t
  {
    if IsMobile(t) {
      StripOfDigits(t);
    } else {
      assert AllDigits(t) by {
        assert forall i :: 2 <= i < |t| ==> t[i] == t[2..][i - 2];
      }
      StripOfDigits(t);
    }
  }

  /** The ten characters `\d` stands for. */
  function DigitClass(): set<char>
  {
    {'0', '1', '2', '3', '4', '5', '6', '7', '8', '9'}
  }

  /**
   * A regular expression made of anchored single-character classes:
   * the string has one character per class, each in its class.
   */
  predicate Matches(t: string, pattern: seq<set<char>>)
  {
    |t| == |pattern| && forall i :: 0 <= i < |t| ==> t[i] in pattern[i]
  }

  /** `^[67]\d{8}$` */
  function MobilePattern(): seq<set<char>>
  {
    [{'6', '7'}] + seq(8, _ => DigitClass())
  }

  /** `^34[67]\d{8}$` */
  function PrefixedPattern(): seq<set<char>>
  {
    [{'3'}, {'4'}] + MobilePattern()
  }

  lemma DigitClassIsDigit(c: char)
    ensures c in DigitClass() <==> IsDigit(c)
  {
  }

  lemma MobileMatches(t: string)
    ensures IsMobile(t) <==> Matches(t, MobilePattern())
  {
    var p := MobilePattern();
    if |t| == 9 {
      forall i | 1 <= i < 9
        ensures t[i] in p[i] <==> IsDigit(t[i])
      {
        DigitClassIsDigit(t[i]);
      }
    }
  }

  /**
   * `esTelefonoValido(t)`: the bare mobile form or the `34`-prefixed form; either way a
   * string of 9 or 11 digits.
   */
  predicate IsValid(t: string): (b: bool)
    ensures b ==> AllDigits(t) && (|t| == 9 || |t| == 11)
  {
    assert IsPrefixed(t) ==> AllDigits(t) by {
      if IsPrefixed(t) {
        assert forall i :: 2 <= i < |t| ==> t[i] == t[2..][i - 2];
      }
    }
    IsMobile(t) || IsPrefixed(t)
  }

  /**
   * `IsValid` is exactly the source's two regular expressions, `^[67]\d{8}$` or
   * `^34[67]\d{8}$`: every other length or leading digit is invalid.
   */
  lemma ValidIffPatterns(t: string)
    ensures IsValid(t) <==> Matches(t, MobilePattern()) || Matches(t, PrefixedPattern())
  {
    ShapesMatch(t);
  }

  lemma ShapesMatch(t: string)
    ensures IsMobile(t) <==> Matches(t, MobilePattern())
    ensures IsPrefixed(t) <==> Matches(t, PrefixedPattern())
  {
    MobileMatches(t);
    if |t| == 11 {
      MobileMatches(t[2..]);
      assert forall i :: 2 <= i < 11 ==> t[2..][i - 2] == t[i];
    }
  }
}
