/**
 * The checker under the ASCII case mapping: there the case tests pick out
 * exactly A-Z and a-z, as the checker's documentation describes them, and the
 * documented examples get the documented labels.
 */
module AsciiExamples {
  import opened JsText
  import opened PasswordStrength

  /** On a one-unit string the ASCII mapping maps that unit. */
  lemma AsciiSingleton(u: CodeUnit)
    ensures Ascii().upper([u]) == [AsciiUpperUnit(u)]
    ensures Ascii().lower([u]) == [AsciiLowerUnit(u)]
  {
    assert MapUnits([u], AsciiUpperUnit) == [AsciiUpperUnit(u)];
    assert MapUnits([u], AsciiLowerUnit) == [AsciiLowerUnit(u)];
  }

  /**
   * Under the ASCII mapping: uppercase is A-Z, lowercase is a-z, "number" is
   * 0-9 together with TAB, LF, VT, FF, CR and SPACE, and everything else is
   * special.
   */
  lemma AsciiClassify(u: CodeUnit)
    requires u < 0x80
    ensures Classify(u, Ascii()) == Uppercase <==> 0x41 <= u <= 0x5A
    ensures Classify(u, Ascii()) == Lowercase <==> 0x61 <= u <= 0x7A
    ensures Classify(u, Ascii()) == Number <==> 0x30 <= u <= 0x39 || 0x09 <= u <= 0x0D || u == 0x20
  {
    AsciiSingleton(u);
  }

  /** The class of an ASCII unit, read off the ranges AsciiClassify gives. */
  function AsciiClass(u: CodeUnit): CharClass {
    if 0x30 <= u <= 0x39 || 0x09 <= u <= 0x0D || u == 0x20 then Number
    else if 0x41 <= u <= 0x5A then Uppercase
    else if 0x61 <= u <= 0x7A then Lowercase
    else Special
  }

  /** For an ASCII string, which classes occur can be read off AsciiClass. */
  lemma AsciiPresence(s: JsString, c: CharClass)
    requires forall i :: 0 <= i < |s| ==> s[i] < 0x80
    ensures ContainsClass(s, Ascii(), c) <==> exists i :: 0 <= i < |s| && AsciiClass(s[i]) == c
  {
    forall i | 0 <= i < |s| ensures Classify(s[i], Ascii()) == AsciiClass(s[i]) {
      AsciiClassify(s[i]);
    }
  }

  /** The label of a non-empty ASCII string, from which classes occur in it. */
  lemma AsciiLabel(s: JsString, upper: bool, lower: bool, number: bool, special: bool)
    requires s != [] && forall i :: 0 <= i < |s| ==> s[i] < 0x80
    requires (exists i :: 0 <= i < |s| && AsciiClass(s[i]) == Uppercase) == upper
    requires (exists i :: 0 <= i < |s| && AsciiClass(s[i]) == Lowercase) == lower
    requires (exists i :: 0 <= i < |s| && AsciiClass(s[i]) == Number) == number
    requires (exists i :: 0 <= i < |s| && AsciiClass(s[i]) == Special) == special
    ensures Evaluate(Str(s), Ascii()) == LabelFor(multiset([|s| >= MinLength, upper, lower, number, special])[true])
  {
    AsciiPresence(s, Uppercase);
    AsciiPresence(s, Lowercase);
    AsciiPresence(s, Number);
    AsciiPresence(s, Special);
    MetCountByPresence(s, Ascii());
  }

  /** The label of a non-empty ASCII string whose units all fall in one class. */
  lemma AsciiOneClassLabel(s: JsString, c: CharClass)
    requires s != [] && forall i :: 0 <= i < |s| ==> s[i] < 0x80 && AsciiClass(s[i]) == c
    ensures Evaluate(Str(s), Ascii())
         == LabelFor(multiset([|s| >= MinLength, c == Uppercase, c == Lowercase, c == Number, c == Special])[true])
  {
    assert AsciiClass(s[0]) == c;
    AsciiLabel(s, c == Uppercase, c == Lowercase, c == Number, c == Special);
  }

  /** "abcdefgh": long enough and lowercase only, two criteria. */
  lemma ExampleAllLower()
    ensures Evaluate(Str(FromAscii("abcdefgh")), Ascii()) == Medium
  {
    var s := FromAscii("abcdefgh");
    assert s == [0x61, 0x62, 0x63, 0x64, 0x65, 0x66, 0x67, 0x68];

    assert forall i :: 0 <= i < |s| ==> AsciiClass(s[i]) == Lowercase;
    AsciiOneClassLabel(s, Lowercase);
  }

  /** "abcdefg": lowercase only and one unit short, one criterion. */
  lemma ExampleShortLower()
    ensures Evaluate(Str(FromAscii("abcdefg")), Ascii()) == Weak
  {
    var s := FromAscii("abcdefg");
    assert s == [0x61, 0x62, 0x63, 0x64, 0x65, 0x66, 0x67];

    assert forall i :: 0 <= i < |s| ==> AsciiClass(s[i]) == Lowercase;
    AsciiOneClassLabel(s, Lowercase);
  }

  /** "Abcdefg1": everything but a special character, four criteria. */
  lemma ExampleNoSpecial()
    ensures Evaluate(Str(FromAscii("Abcdefg1")), Ascii()) == Strong
  {
    var s := FromAscii("Abcdefg1");
    assert s == [0x41, 0x62, 0x63, 0x64, 0x65, 0x66, 0x67, 0x31];
    assert AsciiClass(s[0]) == Uppercase;
    assert AsciiClass(s[1]) == Lowercase;
    assert AsciiClass(s[7]) == Number;
    assert forall i :: 0 <= i < |s| ==> AsciiClass(s[i]) != Special;
    AsciiLabel(s, true, true, true, false);
  }

  /** "Abcdefg1!": all five criteria. */
  lemma ExampleAllFive()
    ensures Evaluate(Str(FromAscii("Abcdefg1!")), Ascii()) == VeryStrong
  {
    var s := FromAscii("Abcdefg1!");
    assert s == [0x41, 0x62, 0x63, 0x64, 0x65, 0x66, 0x67, 0x31, 0x21];
    assert AsciiClass(s[0]) == Uppercase;
    assert AsciiClass(s[1]) == Lowercase;
    assert AsciiClass(s[7]) == Number;
    assert AsciiClass(s[8]) == Special;
    AsciiLabel(s, true, true, true, true);
  }

  /** "!@#$%^&*": long enough and special only, two criteria. */
  lemma ExampleOnlySymbols()
    ensures Evaluate(Str(FromAscii("!@#$%^&*")), Ascii()) == Medium
  {
    var s := FromAscii("!@#$%^&*");
    assert s == [0x21, 0x40, 0x23, 0x24, 0x25, 0x5E, 0x26, 0x2A];

    assert forall i :: 0 <= i < |s| ==> AsciiClass(s[i]) == Special;
    AsciiOneClassLabel(s, Special);
  }

  /**
   * "Abcdef1 ": the trailing space is counted as a number, not as a special
   * character, so only four criteria are met (compare ExampleTrailingBang).
   */
  lemma ExampleTrailingSpace()
    ensures Evaluate(Str(FromAscii("Abcdef1 ")), Ascii()) == Strong
  {
    var s := FromAscii("Abcdef1 ");
    assert s == [0x41, 0x62, 0x63, 0x64, 0x65, 0x66, 0x31, 0x20];
    assert AsciiClass(s[0]) == Uppercase;
    assert AsciiClass(s[1]) == Lowercase;
    assert AsciiClass(s[6]) == Number;
    assert forall i :: 0 <= i < |s| ==> AsciiClass(s[i]) != Special;
    AsciiLabel(s, true, true, true, false);
  }

  /** "Abcdef1!": the same string with '!' in place of the space meets all five. */
  lemma ExampleTrailingBang()
    ensures Evaluate(Str(FromAscii("Abcdef1!")), Ascii()) == VeryStrong
  {
    var s := FromAscii("Abcdef1!");
    assert s == [0x41, 0x62, 0x63, 0x64, 0x65, 0x66, 0x31, 0x21];
    assert AsciiClass(s[0]) == Uppercase;
    assert AsciiClass(s[1]) == Lowercase;
    assert AsciiClass(s[6]) == Number;
    assert AsciiClass(s[7]) == Special;
    AsciiLabel(s, true, true, true, true);
  }
}
