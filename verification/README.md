# SecureApp password strength meter, in Dafny

This project models `checkPasswordStrength`, the password strength meter of the
SecureApp signup page. The function takes any value. Non-strings and the empty
string are "weak". For any other string it makes one left-to-right pass over
the UTF-16 code units and counts each unit in exactly one of four classes:

- number: `Number(ch)` lies in 0..9;
- uppercase: the unit equals its upper-cased form and differs from its
  lower-cased form;
- lowercase: the mirror test;
- special: everything else.

It then checks five criteria: length at least 8, and at least one unit in each
class. A second loop counts the criteria that hold, and the count is mapped to
"weak" (0 or 1), "medium" (2 or 3), "strong" (4) or "very strong" (5).

The project has three modules:

- `JsText` (`js_text.dfy`) models the host facilities the checker uses.
  Strings are sequences of 16-bit code units. `Number` on a one-unit string
  returns a finite value or NaN. The case mappings are a pair of string
  functions, with an ASCII instance.
- `PasswordStrength` (`password_strength.dfy`) holds the checker itself.
  - `Evaluate` is the specification function.
  - `CheckPasswordStrength` is the imperative method with the source's two
    loops, proved to return `Evaluate(...).Name()`.
  - The lemmas cover the counters, the criteria count and the label table.
- `AsciiExamples` (`ascii_examples.dfy`) instantiates the case mapping with
  ASCII. Under it the case tests pick out exactly A-Z and a-z, and the lemmas
  prove the labels of the documented example passwords.

The code and the documented criteria disagree in one place, and the model
follows the code. Criterion 4 is documented as "0-9". The code tests
`Number(ch) >= 0 && Number(ch) <= 9`, and `Number` turns a lone white-space or
line-terminator unit into 0. Such units (space, tab, newline, no-break space
and the other ECMAScript white space) are therefore counted as numbers, not as
special characters. `AsciiExamples.ExampleTrailingSpace` shows the effect:
"Abcdef1 " is only "strong", while "Abcdef1!" is "very strong". Likewise,
"special" is the code's `else` branch (any unit that is neither a number nor
cased), not the documented punctuation list.

## Model

| member | source | states |
|---|---|---|
| `JsText.NumberOfUnit` | src/09-password-strength.js:39 | `Number` of a one-unit string is finite exactly for a decimal digit or an ECMAScript white-space/line-terminator unit, and any finite value lies in 0..9; every other unit gives NaN |
| `PasswordStrength.IsNumberUnit` | src/09-password-strength.js:39 | the test `Number(ch) >= 0 && Number(ch) <= 9` holds exactly for decimal digits and white-space units, because comparisons with NaN are false |
| `PasswordStrength.IsUpperUnit` | src/09-password-strength.js:40 | a unit that passes the uppercase test has a case distinction: its upper- and lower-cased forms differ |
| `PasswordStrength.IsLowerUnit` | src/09-password-strength.js:41 | a unit that passes the lowercase test has a case distinction: its upper- and lower-cased forms differ |
| `PasswordStrength.Classify` | src/09-password-strength.js:39-42 | first match wins, stated per class: a unit is a number iff it passes the number test, uppercase iff it fails that test and passes the uppercase test, lowercase iff it fails the number test and passes the lowercase test, and special iff it fails all three |
| `PasswordStrength.CaseTestsExclusive` | src/09-password-strength.js:40-41 | for every case mapping, no unit passes both the uppercase and the lowercase test |
| `PasswordStrength.CountClass` | src/09-password-strength.js:36-43 | the per-class count kept by the first loop never exceeds the string length |
| `PasswordStrength.CountsPartition` | src/09-password-strength.js:36-43 | every unit increments exactly one counter: the four counters sum to the string's length |
| `PasswordStrength.CountClassAppend` | src/09-password-strength.js:36-43 | one more unit adds one to the counter of its own class and leaves the other three unchanged |
| `PasswordStrength.CountClassConcat` | src/09-password-strength.js:36-43 | counting over two strings joined together adds the counts of the two parts |
| `PasswordStrength.CountClassInsert` | src/09-password-strength.js:36-43 | inserting a unit at any position adds one to its own class's counter and leaves the other three unchanged |
| `PasswordStrength.CountPositiveIff` | src/09-password-strength.js:45-48 | a counter is at least 1 iff some unit of the string is in that class |
| `PasswordStrength.Criteria` | src/09-password-strength.js:44-49 | there are exactly five criteria |
| `PasswordStrength.CountTrue` | src/09-password-strength.js:49-54 | the count kept by the second loop never exceeds the number of criteria |
| `PasswordStrength.CountTrueIsMultiplicity` | src/09-password-strength.js:49-54 | the counting loop's result equals the number of `true` entries among the criteria (their multiplicity in the multiset) |
| `PasswordStrength.CountTrueExtremes` | src/09-password-strength.js:49-54 | the count equals the number of criteria iff all hold, and is 0 iff none holds |
| `PasswordStrength.CountTrueMonotone` | src/09-password-strength.js:49-54 | making more criteria true never lowers the count |
| `PasswordStrength.MetCount` | src/09-password-strength.js:44-54 | the number of criteria met lies in 0..5 |
| `PasswordStrength.MetCountByPresence` | src/09-password-strength.js:44-54 | the score is the number of true entries among "length at least 8" and "contains a unit of class c" for the four classes, with no counters involved |
| `PasswordStrength.LabelFor` | src/09-password-strength.js:55-58 | the table, both ways: "very strong" iff 5, "strong" iff 4, "medium" iff 2 or 3, "weak" iff 0 or 1 |
| `PasswordStrength.LabelMonotone` | src/09-password-strength.js:55-58 | more criteria met never gives a weaker label |
| `PasswordStrength.NameInjective` | src/09-password-strength.js:55-58 | the four returned strings are distinct, so the string determines the strength |
| `PasswordStrength.Evaluate` | src/09-password-strength.js:28-59 | over the two-case `Input` datatype (a string, or any other value, standing for the `typeof` test on line 29): a non-string is "weak", the empty string is "weak", and a non-empty string gets the label of the number of criteria it meets |
| `PasswordStrength.EvaluateNamesALabel` | src/09-password-strength.js:26 | the result is always one of "weak", "medium", "strong", "very strong" |
| `PasswordStrength.VeryStrongIff` | src/09-password-strength.js:44-55 | "very strong" iff the string has at least 8 units and contains an uppercase, a lowercase, a number and a special unit |
| `PasswordStrength.ShortNeverVeryStrong` | src/09-password-strength.js:44-55 | a string shorter than 8 units meets at most 4 criteria and is never "very strong" |
| `PasswordStrength.EmptyMeetsNoCriterion` | src/09-password-strength.js:31 | the empty string meets no criterion, so the early return gives the same "weak" the table would |
| `PasswordStrength.InsertNeverWeakens` | src/09-password-strength.js:44-58 | inserting one more unit at any position of the password never makes the meter report a weaker label |
| `PasswordStrength.CheckPasswordStrength` | src/09-password-strength.js:28-59 | the method with the type check, the empty check, the classifying loop, the criteria-counting loop and the label chain returns exactly the name of `Evaluate`'s label, which is one of the four labels |
| `AsciiExamples.AsciiClassify` | src/09-password-strength.js:40-41 | under the ASCII case mapping, uppercase is exactly A-Z, lowercase exactly a-z, and "number" is 0-9 together with TAB, LF, VT, FF, CR and SPACE |
| `AsciiExamples.ExampleAllLower` | src/09-password-strength.js:17 | "abcdefgh" is "medium" |
| `AsciiExamples.ExampleShortLower` | src/09-password-strength.js:16 | "abcdefg" is "weak" |
| `AsciiExamples.ExampleNoSpecial` | src/09-password-strength.js:18 | "Abcdefg1" is "strong" |
| `AsciiExamples.ExampleAllFive` | src/09-password-strength.js:19 | "Abcdefg1!" is "very strong" |
| `AsciiExamples.ExampleOnlySymbols` | src/09-password-strength.js:42 | "!@#$%^&*" meets only the length and special criteria and is "medium" |
| `AsciiExamples.ExampleTrailingSpace` | src/09-password-strength.js:39 | "Abcdef1 " is only "strong": the space counts as a number, so no special unit is present |
| `AsciiExamples.ExampleTrailingBang` | src/09-password-strength.js:55 | "Abcdef1!" is "very strong" |

## Left out

- Dynamic typing: `typeof password !== "string"` becomes the two-case `Input` datatype. What a non-string value is made of plays no part.
- The Unicode case tables behind `toUpperCase` and `toLowerCase` are not modelled. The case mapping is a parameter (`CaseMapping`), so every result holds for any mapping, including locale effects and one unit mapping to several. The ASCII instance, used for the examples, leaves every non-ASCII unit unchanged, which the real tables do not.
- General `Number()` parsing is not modelled. Only its outcome on a one-unit string is: a digit gives its value, a white-space unit gives 0, anything else gives NaN.
- The white-space set is the one ECMAScript defines for StringToNumber, with the Unicode "Zs" separators fixed as of current Unicode versions. A host whose Unicode tables differ (for example, older engines that treated U+180E as a space) is not modelled.
- Surrogate pairs and grapheme clusters are not modelled. The input is a sequence of 16-bit code units, exactly what `charAt` and `length` see.
- Purity and idempotence (the same input always gives the same label) hold by construction: `Evaluate` is a function and the method's result is determined by its contract. No separate lemma states them.
- The doc comment's literal special-character list (line 13) is not modelled. The code's `else` branch is.
