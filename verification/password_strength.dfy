/**
 * The SecureApp password strength meter: a candidate password is scored on
 * five criteria (length at least 8, and at least one uppercase, lowercase,
 * number and special character) and the number of criteria met is mapped to
 * one of the labels "weak", "medium", "strong" and "very strong".
 */
module PasswordStrength {
  import opened JsText

  /** The checker accepts any value; only strings are examined. */
  datatype Input = Str(units: JsString) | NotAString

  /** The single class each code unit is counted in. */
  datatype CharClass = Number | Uppercase | Lowercase | Special

  /** The four labels, weakest first. */
  datatype Strength = Weak | Medium | Strong | VeryStrong {
    /** The label as the checker returns it. */
    function Name(): string {
      match this
      case Weak => "weak"
      case Medium => "medium"
      case Strong => "strong"
      case VeryStrong => "very strong"
    }

    /** Position in the order weak < medium < strong < very strong. */
    function Rank(): nat {
      match this
      case Weak => 0
      case Medium => 1
      case Strong => 2
      case VeryStrong => 3
    }
  }

  /** The length criterion: at least this many code units. */
  const MinLength := 8

  // ---------------------------------------------------------------------------
  // Classifying one code unit

  /**
   * `Number(ch) >= 0 && Number(ch) <= 9`: it holds exactly for the decimal
   * digits and the units that `Number` reads as white space, because every
   * comparison with NaN is false.
   */
  predicate IsNumberUnit(ch: CodeUnit)
    ensures IsNumberUnit(ch) <==> IsDecimalDigit(ch) || IsStrWhiteSpace(ch)
  {
    var n := NumberOfUnit(ch);
    AtLeast(n, 0) && AtMost(n, 9)
  }

  /**
   * `ch === ch.toUpperCase() && ch !== ch.toLowerCase()`: a unit that passes
   * has a case distinction (its two mapped forms differ).
   */
  predicate IsUpperUnit(ch: CodeUnit, cm: CaseMapping)
    ensures IsUpperUnit(ch, cm) ==> cm.upper([ch]) != cm.lower([ch])
  {
    [ch] == cm.upper([ch]) && [ch] != cm.lower([ch])
  }

  /**
   * `ch === ch.toLowerCase() && ch !== ch.toUpperCase()`: a unit that passes
   * has a case distinction (its two mapped forms differ).
   */
  predicate IsLowerUnit(ch: CodeUnit, cm: CaseMapping)
    ensures IsLowerUnit(ch, cm) ==> cm.upper([ch]) != cm.lower([ch])
  {
    [ch] == cm.lower([ch]) && [ch] != cm.upper([ch])
  }

  /**
   * The class a code unit is counted in: the first test it passes wins.
   * Described without reference to the order of the tests, a unit is counted
   * as lowercase exactly when it passes the lowercase test and not the
   * number test (the uppercase test cannot also hold), and as special
   * exactly when it fails all three tests.
   */
  function Classify(ch: CodeUnit, cm: CaseMapping): (r: CharClass)
    ensures r == Number <==> IsNumberUnit(ch)
    ensures r == Uppercase <==> !IsNumberUnit(ch) && IsUpperUnit(ch, cm)
    ensures r == Lowercase <==> !IsNumberUnit(ch) && IsLowerUnit(ch, cm)
    ensures r == Special <==> !IsNumberUnit(ch) && !IsUpperUnit(ch, cm) && !IsLowerUnit(ch, cm)
  {
    if IsNumberUnit(ch) then Number
    else if IsUpperUnit(ch, cm) then Uppercase
    else if IsLowerUnit(ch, cm) then Lowercase
    else Special
  }

  /** No unit passes both case tests, whatever the case mapping. */
  lemma CaseTestsExclusive(ch: CodeUnit, cm: CaseMapping)
    ensures !(IsUpperUnit(ch, cm) && IsLowerUnit(ch, cm))
  {
  }

  // ---------------------------------------------------------------------------
  // Counting

  /** How many units of `s` are counted in class `c`. */
  function CountClass(s: JsString, cm: CaseMapping, c: CharClass): (n: nat)
    ensures n <= |s|
  {
    if s == [] then 0
    else CountClass(s[..|s| - 1], cm, c) + (if Classify(s[|s| - 1], cm) == c then 1 else 0)
  }

  /** The four counters together account for every unit of the string. */
  lemma {:induction false} CountsPartition(s: JsString, cm: CaseMapping)
    ensures CountClass(s, cm, Number) + CountClass(s, cm, Uppercase)
          + CountClass(s, cm, Lowercase) + CountClass(s, cm, Special) == |s|
  {
    if s != [] {
      CountsPartition(s[..|s| - 1], cm);
    }
  }

  /** Some unit of `s` is counted in class `c`. */
  predicate ContainsClass(s: JsString, cm: CaseMapping, c: CharClass) {
    exists i :: 0 <= i < |s| && Classify(s[i], cm) == c
  }

  /** A counter is positive exactly when some unit of the string is in its class. */
  lemma {:induction false} CountPositiveIff(s: JsString, cm: CaseMapping, c: CharClass)
    ensures CountClass(s, cm, c) >= 1 <==> ContainsClass(s, cm, c)
  {
    if s != [] {
      var init := s[..|s| - 1];
      CountPositiveIff(init, cm, c);
      if exists i :: 0 <= i < |init| && Classify(init[i], cm) == c {
        var i :| 0 <= i < |init| && Classify(init[i], cm) == c;
        assert s[i] == init[i];
      }
      if exists i :: 0 <= i < |s| && Classify(s[i], cm) == c {
        var i :| 0 <= i < |s| && Classify(s[i], cm) == c;
        if i < |init| {
          assert init[i] == s[i];
        }
      }
    }
  }

  /**
   * Appending a unit adds one to the counter of its own class and leaves the
   * other three counters unchanged.
   */
  lemma CountClassAppend(s: JsString, ch: CodeUnit, cm: CaseMapping, c: CharClass)
    ensures CountClass(s + [ch], cm, c)
          == CountClass(s, cm, c) + (if Classify(ch, cm) == c then 1 else 0)
  {
  }

  /** Counting over a concatenation adds the counts of the two parts. */
  lemma {:induction false} CountClassConcat(a: JsString, b: JsString, cm: CaseMapping, c: CharClass)
    ensures CountClass(a + b, cm, c) == CountClass(a, cm, c) + CountClass(b, cm, c)
  {
    if b == [] {
      assert a + b == a;
    } else {
      var init := b[..|b| - 1];
      CountClassConcat(a, init, cm, c);
      assert (a + b)[..|a + b| - 1] == a + init;
    }
  }

  /**
   * Inserting a unit anywhere adds one to the counter of its own class and
   * leaves the other three counters unchanged.
   */
  lemma CountClassInsert(s: JsString, k: nat, ch: CodeUnit, cm: CaseMapping, c: CharClass)
    requires k <= |s|
    ensures CountClass(s[..k] + [ch] + s[k..], cm, c)
          == CountClass(s, cm, c) + (if Classify(ch, cm) == c then 1 else 0)
  {
    CountClassConcat(s[..k] + [ch], s[k..], cm, c);
    CountClassAppend(s[..k], ch, cm, c);
    CountClassConcat(s[..k], s[k..], cm, c);
    assert s[..k] + s[k..] == s;
  }

  // ---------------------------------------------------------------------------
  // Criteria and score

  /** The five criteria, in the order the checker lists them. */
  function Criteria(s: JsString, cm: CaseMapping): (r: seq<bool>)
    ensures |r| == 5
  {
    [ |s| >= MinLength,
      CountClass(s, cm, Uppercase) >= 1,
      CountClass(s, cm, Lowercase) >= 1,
      CountClass(s, cm, Number) >= 1,
      CountClass(s, cm, Special) >= 1 ]
  }

  /** How many entries of `bs` are true. */
  function CountTrue(bs: seq<bool>): (n: nat)
    ensures n <= |bs|
  {
    if bs == [] then 0
    else CountTrue(bs[..|bs| - 1]) + (if bs[|bs| - 1] then 1 else 0)
  }

  /** The count of true entries is the multiplicity of `true` among them. */
  lemma {:induction false} CountTrueIsMultiplicity(bs: seq<bool>)
    ensures CountTrue(bs) == multiset(bs)[true]
  {
    if bs != [] {
      var init := bs[..|bs| - 1];
      CountTrueIsMultiplicity(init);
      assert bs == init + [bs[|bs| - 1]];
    }
  }

  /** Making more entries true never lowers the count. */
  lemma {:induction false} CountTrueMonotone(a: seq<bool>, b: seq<bool>)
    requires |a| == |b|
    requires forall i :: 0 <= i < |a| && a[i] ==> b[i]
    ensures CountTrue(a) <= CountTrue(b)
  {
    if a != [] {
      CountTrueMonotone(a[..|a| - 1], b[..|b| - 1]);
    }
  }

  /** How many of the five criteria `s` meets. */
  function MetCount(s: JsString, cm: CaseMapping): (n: nat)
    ensures n <= 5
  {
    CountTrue(Criteria(s, cm))
  }

  /** Every entry is true exactly when all count, and none exactly when the count is 0. */
  lemma {:induction false} CountTrueExtremes(bs: seq<bool>)
    ensures CountTrue(bs) == |bs| <==> forall i :: 0 <= i < |bs| ==> bs[i]
    ensures CountTrue(bs) == 0 <==> forall i :: 0 <= i < |bs| ==> !bs[i]
  {
    if bs != [] {
      var init := bs[..|bs| - 1];
      CountTrueExtremes(init);
      assert forall i :: 0 <= i < |init| ==> init[i] == bs[i];
    }
  }

  /**
   * The score without counters: the number of criteria among "long enough"
   * and "contains a unit of class c" for each of the four classes.
   */
  lemma MetCountByPresence(s: JsString, cm: CaseMapping)
    ensures MetCount(s, cm) == multiset([ |s| >= MinLength,
                                          ContainsClass(s, cm, Uppercase),
                                          ContainsClass(s, cm, Lowercase),
                                          ContainsClass(s, cm, Number),
                                          ContainsClass(s, cm, Special) ])[true]
  {
    CountPositiveIff(s, cm, Uppercase);
    CountPositiveIff(s, cm, Lowercase);
    CountPositiveIff(s, cm, Number);
    CountPositiveIff(s, cm, Special);
    CountTrueIsMultiplicity(Criteria(s, cm));
  }

  // ---------------------------------------------------------------------------
  // Labels

  /** The table from the number of criteria met to the label. */
  function LabelFor(count: nat): (r: Strength)
    requires count <= 5
    ensures r == VeryStrong <==> count == 5
    ensures r == Strong <==> count == 4
    ensures r == Medium <==> count == 2 || count == 3
    ensures r == Weak <==> count <= 1
  {
    if count == 5 then VeryStrong
    else if count == 4 then Strong
    else if count == 2 || count == 3 then Medium
    else Weak
  }

  /** Meeting more criteria never gives a weaker label. */
  lemma LabelMonotone(a: nat, b: nat)
    requires a <= b <= 5
    ensures LabelFor(a).Rank() <= LabelFor(b).Rank()
  {
  }

  /** The labels are four distinct strings, so the name determines the strength. */
  lemma NameInjective(x: Strength, y: Strength)
    ensures x.Name() == y.Name() ==> x == y
  {
  }

  /** The label the checker gives an input. */
  function Evaluate(input: Input, cm: CaseMapping): (r: Strength)
    ensures !input.Str? ==> r == Weak
    ensures input == Str([]) ==> r == Weak
    ensures input.Str? && input.units != [] ==> r == LabelFor(MetCount(input.units, cm))
  {
    match input
    case NotAString => Weak
    case Str(s) => if |s| == 0 then Weak else LabelFor(MetCount(s, cm))
  }

  /** The label is always one of the four the checker documents. */
  lemma EvaluateNamesALabel(input: Input, cm: CaseMapping)
    ensures Evaluate(input, cm).Name() in {"weak", "medium", "strong", "very strong"}
  {
  }

  /**
   * The label "very strong" is given exactly to strings of at least 8 units
   * that contain an uppercase, a lowercase, a number and a special unit.
   */
  lemma VeryStrongIff(s: JsString, cm: CaseMapping)
    ensures Evaluate(Str(s), cm) == VeryStrong <==>
      && |s| >= MinLength
      && ContainsClass(s, cm, Uppercase)
      && ContainsClass(s, cm, Lowercase)
      && ContainsClass(s, cm, Number)
      && ContainsClass(s, cm, Special)
  {
    CountTrueExtremes(Criteria(s, cm));
    CountPositiveIff(s, cm, Uppercase);
    CountPositiveIff(s, cm, Lowercase);
    CountPositiveIff(s, cm, Number);
    CountPositiveIff(s, cm, Special);
    var cr := Criteria(s, cm);
    assert (forall i :: 0 <= i < 5 ==> cr[i]) <==> cr[0] && cr[1] && cr[2] && cr[3] && cr[4];
  }

  /** A string shorter than 8 units is never "very strong". */
  lemma ShortNeverVeryStrong(s: JsString, cm: CaseMapping)
    requires |s| < MinLength
    ensures Evaluate(Str(s), cm) != VeryStrong
    ensures MetCount(s, cm) <= 4
  {
    CountTrueExtremes(Criteria(s, cm));
    assert !Criteria(s, cm)[0];
  }

  /**
   * The short cut for the empty string does not change the outcome: the
   * empty string meets no criterion, which the table labels "weak" anyway.
   */
  lemma EmptyMeetsNoCriterion(cm: CaseMapping)
    ensures MetCount([], cm) == 0 && LabelFor(MetCount([], cm)) == Weak
  {
    CountTrueExtremes(Criteria([], cm));
  }

  /**
   * Typing one more character, at any position of the password, never makes
   * the meter report a weaker label.
   */
  lemma InsertNeverWeakens(s: JsString, k: nat, ch: CodeUnit, cm: CaseMapping)
    requires k <= |s|
    ensures Evaluate(Str(s), cm).Rank() <= Evaluate(Str(s[..k] + [ch] + s[k..]), cm).Rank()
  {
    var t := s[..k] + [ch] + s[k..];
    CountClassInsert(s, k, ch, cm, Uppercase);
    CountClassInsert(s, k, ch, cm, Lowercase);
    CountClassInsert(s, k, ch, cm, Number);
    CountClassInsert(s, k, ch, cm, Special);
    var before, after := Criteria(s, cm), Criteria(t, cm);
    CountTrueMonotone(before, after);
    LabelMonotone(MetCount(s, cm), MetCount(t, cm));
  }

  // ---------------------------------------------------------------------------
  // The checker

  /**
   * checkPasswordStrength: one pass over the code units counting each in its
   * class, then a pass over the five criteria counting those met, then the
   * label table.
   */
  method CheckPasswordStrength(password: Input, cm: CaseMapping) returns (result: string)
    ensures result == Evaluate(password, cm).Name()
    ensures result in {"weak", "medium", "strong", "very strong"}
  {
    if !password.Str? {
      return "weak";
    }
    var s := password.units;
    var length := |s|;
    if length == 0 {
      return "weak";
    }
    var countOfUppercase, countOfLowercase, countOfNumber, countOfSpecial := 0, 0, 0, 0;
    for i := 0 to length
      invariant countOfUppercase == CountClass(s[..i], cm, Uppercase)
      invariant countOfLowercase == CountClass(s[..i], cm, Lowercase)
      invariant countOfNumber == CountClass(s[..i], cm, Number)
      invariant countOfSpecial == CountClass(s[..i], cm, Special)
    {
      var ch := s[i];
      assert s[..i + 1] == s[..i] + [ch];
      CountClassAppend(s[..i], ch, cm, Uppercase);
      CountClassAppend(s[..i], ch, cm, Lowercase);
      CountClassAppend(s[..i], ch, cm, Number);
      CountClassAppend(s[..i], ch, cm, Special);
      var n := NumberOfUnit(ch);
      if AtLeast(n, 0) && AtMost(n, 9) {
        countOfNumber := countOfNumber + 1;
      } else if [ch] == cm.upper([ch]) && [ch] != cm.lower([ch]) {
        countOfUppercase := countOfUppercase + 1;
      } else if [ch] == cm.lower([ch]) && [ch] != cm.upper([ch]) {
        countOfLowercase := countOfLowercase + 1;
      } else {
        countOfSpecial := countOfSpecial + 1;
      }
    }
    assert s[..length] == s;
    var criteria := [length >= MinLength, countOfUppercase >= 1, countOfLowercase >= 1,
                     countOfNumber >= 1, countOfSpecial >= 1];
    assert criteria == Criteria(s, cm);
    var count := 0;
    for i := 0 to |criteria|
      invariant count == CountTrue(criteria[..i])
    {
      assert criteria[..i + 1][..i] == criteria[..i];
      if criteria[i] {
        count := count + 1;
      }
    }
    assert criteria[..|criteria|] == criteria;
    if count == 5 {
      result := "very strong";
    } else if count == 4 {
      result := "strong";
    } else if count == 2 || count == 3 {
      result := "medium";
    } else {
      result := "weak";
    }
  }
}
