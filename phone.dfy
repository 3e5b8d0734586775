/** The phone field of the appointment form: the `input` handler keeps only
    ASCII digits and at most ten of them, and the `blur` handler flags any
    non-empty value whose length is not ten. */
module Phone {

  const MaxDigits := 10
  const InvalidMessage := "Please enter a valid 10-digit mobile number"

  /** The characters the regular expression class `\d` matches. */
  predicate IsDigit(c: char) {
    '0' <= c <= '9'
  }

  predicate AllDigits(s: string) {
    forall i :: 0 <= i < |s| ==> IsDigit(s[i])
  }

  /** Every non-digit removed, digits kept in order. */
  function Digits(s: string): (r: string)
    ensures AllDigits(r)
    ensures |r| <= |s|
    ensures |r| == |s| <==> AllDigits(s)
  {
    if s == [] then []
    else if IsDigit(s[0]) then [s[0]] + Digits(s[1..])
    else Digits(s[1..])
  }

  /** The `input` handler: strip non-digits, then keep the first ten. */
  function Sanitize(s: string): (r: string)
    ensures AllDigits(r)
    ensures |r| <= MaxDigits
    ensures |r| == if |Digits(s)| < MaxDigits then |Digits(s)| else MaxDigits
    ensures r <= Digits(s)
  {
    var value := Digits(s);
    if |value| > MaxDigits then value[..MaxDigits] else value
  }

  /** What the `blur` handler leaves on the field: the custom validity
      message (empty means valid) and whether it asked the browser to
      report it. */
  datatype BlurResult = BlurResult(customValidity: string, reported: bool)

  function OnBlur(value: string): (r: BlurResult)
    ensures r.customValidity == "" || r.customValidity == InvalidMessage
    ensures r.reported <==> r.customValidity != ""
    ensures r.customValidity == InvalidMessage ==> value != []
  {
    if value != [] && |value| != MaxDigits then BlurResult(InvalidMessage, true)
    else BlurResult("", false)
  }

  /** Removing non-digits distributes over concatenation. */
  lemma {:induction false} DigitsAppend(a: string, b: string)
    ensures Digits(a + b) == Digits(a) + Digits(b)
  {
    if a == [] {
      assert a + b == b;
    } else {
      assert (a + b)[1..] == a[1..] + b;
      DigitsAppend(a[1..], b);
    }
  }

  /** A string of digits only is left as it is by the digit filter, and
      only such a string is. */
  lemma {:induction false} DigitsFixedPoint(s: string)
    ensures Digits(s) == s <==> AllDigits(s)
  {
    if s != [] {
      DigitsFixedPoint(s[1..]);
    }
  }

  /** The input handler applied to its own output changes nothing. */
  lemma SanitizeIdempotent(s: string)
    ensures Sanitize(Sanitize(s)) == Sanitize(s)
  {
    DigitsFixedPoint(Sanitize(s));
  }

  /** The handler leaves a value unchanged exactly when it is at most ten
      digits. */
  lemma SanitizeFixedPoint(s: string)
    ensures Sanitize(s) == s <==> AllDigits(s) && |s| <= MaxDigits
  {
    DigitsFixedPoint(s);
  }

  /** Typing a non-digit at the end leaves the filtered value unchanged. */
  lemma NonDigitIgnored(s: string, c: char)
    requires !IsDigit(c)
    ensures Sanitize(s + [c]) == Sanitize(s)
  {
    DigitsAppend(s, [c]);
    assert Digits([c]) == [];
    assert Digits(s) + [] == Digits(s);
  }

  /** Once ten digits have been typed, anything typed after them is
      discarded. */
  lemma FullNumberIgnoresMore(s: string, t: string)
    requires |Digits(s)| >= MaxDigits
    ensures Sanitize(s + t) == Sanitize(s)
  {
    DigitsAppend(s, t);
    assert (Digits(s) + Digits(t))[..MaxDigits] == Digits(s)[..MaxDigits];
  }

  /** The blur check reports an error exactly for a non-empty value whose
      length is not ten, and clears the error otherwise. */
  lemma BlurFlagsWrongLength(value: string)
    ensures OnBlur(value).customValidity != "" <==> value != [] && |value| != MaxDigits
    ensures OnBlur(value).reported <==> OnBlur(value).customValidity != ""
  {
  }

  /** After the input filter, the blur check flags a value exactly when the
      input held between one and nine digits. */
  lemma BlurAfterInput(s: string)
    ensures OnBlur(Sanitize(s)).customValidity != "" <==> 0 < |Digits(s)| < MaxDigits
  {
  }
}
