# GS1 / GTIN codec — a Dafny model

This project models the number-handling core of a small PHP library for GS1 identifiers.
It covers Global Trade Item Numbers (GTIN-8, GTIN-12/UPC-A and GTIN-14) and GS1 element
strings built from Application Identifiers (AIs).

The library holds several variants of the same idea side by side. Each one is modelled as
written, and the variants are not merged:

- `GtinAbstract`, with `Gtin8` on top of it, is the newer GTIN class. It provides:
  - the mod-10 check digit, weighted 3/1 over the number left-padded to 15 digits (section
    7.9.1 of the GS1 General Specifications);
  - the type-to-width table `getMaxDigits`;
  - `validate`;
  - a constructor with two modes. Pass-through mode takes a complete number and checks it.
    Construction mode builds the number from a company prefix and a zero-padded item
    reference.
- `Gtin` (GTIN-14) and `Gtin12` are the older classes. Each constructor has two branches:
  - it splits an input of full length and checks its check digit;
  - or it pads a shorter input and computes the check digit.
- `Gs1Generator` covers GS1 element strings:
  - it builds a record from a keyed array;
  - it reads a record back from text with a fixed sequence of regular expressions, each of
    which deletes what it matched from a scratch string;
  - it writes the record out in a fixed order (`__toString`) and projects selected keys
    (`get`).
- `Gs1` is the older element-string reader. It splits the text on `(digits)` delimiters and
  reads alternate pieces as AI and value.
- `Gs1Code` is the enumeration of the AIs that `Gs1` recognises.

The model has one module per PHP file, plus three shared modules:

- `Wrappers` holds `Option` and `Result`.
- `Decimal` models the PHP string and integer primitives the code relies on:
  - `(string)` and `(int)` casts;
  - `substr` with PHP 8 semantics for negative offsets and lengths;
  - `str_pad` (which never truncates);
  - `sprintf('%0Nd')`, where a negative width pads with zeros on the right;
  - `strtoupper`.
- `CheckDigit` holds the single specification function of the checksum loop. All three of
  the library's check-digit loops are proved against it.

How each kind of source code is modelled:

- Objects whose fields the PHP code assigns step by step are classes whose methods modify
  those fields.
- The checksum loops are `while` loops with invariants.
- Each constructor is also given as a pure function (`Construct`, `FromData`, `ParseSpec`,
  `Decode`), and the lemmas are stated about that function.
- Exceptions are the `Failure` side of a `Result`.

Where the documented intent and the code disagree, the model follows the code:

- **GTIN-14 check digit.** `GtinAbstract` computes it over the company and item digits only.
  The packaging digit written in front is left out, so a built GTIN-14 number fails the
  library's own `validate` (`Gtin14BuiltNumberFailsValidation`).
- **`validate` length test.** It compares the length with `getMaxDigits` itself, not with
  `getMaxDigits` + 1.
- **Order of `get`.** It emits entries in the order of the data array, not in the order of
  the requested codes (`SelectFollowsDataOrder`).
- **`Gs1Generator` constructor keys.** Key 10 goes to the expiration date and key 17 to the
  batch (`ConstructorKeysAsWritten`).
- **Gross weight in `__toString`.** It is padded with zeros on the right, while `get` pads
  it on the left (`GrossWeightPaddedOnTheRight`). Only the GTIN is therefore guaranteed to
  survive a write/read round trip (`RenderedGtinReadBack`).

## Model

| member | source | states |
|---|---|---|
| CheckDigit.Window | src/GtinAbstract.php:170 | the loop reads exactly fifteen characters: the input left-padded with zeros, and never truncated |
| CheckDigit.CheckDigitOf | src/GtinAbstract.php:168-178 | the check digit is a single digit 0-9, and adding it makes the 3/1-weighted sum of the padded input a multiple of ten |
| CheckDigit.ModComplement | src/GtinAbstract.php:176-177 | `10 - sum % 10`, with 10 mapped to 0, completes any sum to a multiple of ten |
| CheckDigit.WeightedSumStep | src/GtinAbstract.php:172-175 | the loop's weight `((i+1)%2)*2+1` is the 3/1 weight, so each turn adds the next term of the weighted sum |
| CheckDigit.WeightedSumConcat | src/GtinAbstract.php:174 | after a prefix of even length the weights restart at 3, so the sum splits over the two parts |
| CheckDigit.SameWindowSameDigit | src/GtinAbstract.php:170-177 | inputs that pad to the same fifteen characters get the same check digit |
| CheckDigit.LeadingZerosWindow | src/GtinAbstract.php:170 | leading zeros are absorbed by the padding while the input stays within fifteen characters |
| CheckDigit.LeadingZerosIgnored | src/GtinAbstract.php:170-177 | leading zeros never change the check digit of an input of at most fifteen characters |
| CheckDigit.OnlyFirstFifteenRead | src/GtinAbstract.php:170-175 | for an input of fifteen or more characters only the first fifteen decide the check digit |
| CheckDigit.WeightedSumOneChange | src/GtinAbstract.php:174 | changing one digit changes the weighted sum by exactly that position's weight times the difference |
| CheckDigit.WindowOneChange | src/GtinAbstract.php:170 | padding two equally long inputs that differ in one place gives windows that differ in exactly the shifted place |
| CheckDigit.SumsDifferDigitsDiffer | src/GtinAbstract.php:176-177 | weighted sums that differ modulo ten give different check digits |
| CheckDigit.SingleDigitErrorDetected | src/GtinAbstract.php:168-178 | changing a single digit of an input of at most fifteen characters always changes its check digit |
| Decimal.ToUpper | src/GtinAbstract.php:60 | `strtoupper` keeps the length and upper-cases each ASCII letter in place |
| Decimal.ToUpperIdempotent | src/GtinAbstract.php:254 | upper-casing an already upper-cased type changes nothing |
| Decimal.LeftPad | src/GtinAbstract.php:170 | `str_pad` to the left gives the longer of the input and the width, with the pad character only in front |
| Decimal.RightPad | src/Gs1Generator.php:156 | `str_pad` to the right gives the longer of the input and the width, with the pad character only behind |
| Decimal.NatToString | src/Gtin.php:68 | `(string)` of a natural is canonical decimal text: digits only, no leading zero unless it is "0" |
| Decimal.ParseNatToString | src/Gtin.php:68 | reading back the decimal text of a natural gives that natural |
| Decimal.NatToStringOfParse | src/Gtin.php:49 | canonical digit text read as a number and written out again is the same text |
| Decimal.ZeroPaddedValue | src/GtinAbstract.php:153-156 | `sprintf('%0Nd')` of a natural with a non-negative width is all digits and keeps the number's value |
| Decimal.FormatZeroPaddedOfDigits | src/Gtin.php:56 | a digit string zero-padded to its own length comes back unchanged |
| Decimal.ZeroPadRoundTrip | src/Gs1Generator.php:79 | a digit string read as a number and left-padded with zeros to its length comes back unchanged |
| Decimal.SubstrDropEnd | src/Gtin.php:56 | `substr($s, a, -k)` is the text from `a` up to `k` characters before the end, or empty when too short |
| Decimal.SubstrLastK | src/Gtin.php:57 | `substr($s, -k)` is the last `k` characters, or the whole text when it is shorter |
| Decimal.SubstrAllButLast | src/GtinAbstract.php:72 | `substr($s, 0, -1)` drops exactly the last character |
| Decimal.SubstrLast | src/GtinAbstract.php:73 | `substr($s, -1)` is exactly the last character |
| Decimal.IntValueExponent | src/Gs1.php:58 | `(int)` of digits, `e` and exponent digits is the digits' value times that power of ten, so `"1e3"` is 1000 |
| Decimal.IntValueFraction | src/Gs1.php:56 | `(int)` of digits, `.` and fraction digits is the whole part only, so `"2.75"` is 2 |
| GtinAbstract.MaxDigits | src/GtinAbstract.php:251-265 | the allowance is always 12, 11 or 7 |
| GtinAbstract.MaxDigitsTable | src/GtinAbstract.php:251-265 | in both directions: 11 exactly for GTIN-12/UPC-A, 7 exactly for GTIN-8/EAN-8, and 12 for GTIN-14/EAN-14/ITF-14 and every other type, after upper-casing |
| GtinAbstract.MaxDigitsIgnoresCase | src/GtinAbstract.php:254 | the type is matched without regard to case |
| GtinAbstract.ValidateAsWritten | src/GtinAbstract.php:340-361 | `validate` is false below `getMaxDigits` characters; otherwise it is true exactly when `(int) substr($n, -1)` equals the check digit of `substr($n, 0, -1)`; it never throws |
| GtinAbstract.ValidateIgnoresCase | src/GtinAbstract.php:345 | the outcome of `validate` does not depend on the case of the type |
| GtinAbstract.AppendedCheckDigitValidates | src/GtinAbstract.php:340-361 | a long enough body followed by its own check digit validates, for every type |
| GtinAbstract.ValidateDetectsSingleDigitError | src/GtinAbstract.php:340-361 | if a number validates, every copy with one digit changed outside the check digit fails to validate |
| GtinAbstract.ItemReferenceFits | src/GtinAbstract.php:152-156 | within the allowance the padded item reference has exactly the digits the prefix leaves, all digits, worth the item number |
| GtinAbstract.CompanyItemNumber | src/GtinAbstract.php:136-159 | throws the allocation error exactly when prefix plus item exceed the allowance; otherwise it returns the prefix followed by the zero-padded item, exactly `getMaxDigits` long and worth the item after the prefix |
| GtinAbstract.CompleteNumberParts | src/GtinAbstract.php:72-73 | for a validating number, the body `substr` cuts and the digit `substr` reads put back together give the number, and the digit is the body's check digit |
| GtinAbstract.PassThrough | src/GtinAbstract.php:66-76 | pass-through mode succeeds exactly when the number validates, and otherwise throws "Invalid Check Digit"; on success body plus check digit is the input verbatim and `number` is the indicator plus the input; prefix and item reference stay unset |
| GtinAbstract.PassThroughFields | src/GtinAbstract.php:72-73 | pass-through mode stores the `substr` parts of the input as company item number and check digit |
| GtinAbstract.Build | src/GtinAbstract.php:77-86 | construction mode stores the prefix, the padded item reference, a company item number of exactly `getMaxDigits` characters and its check digit, and `number` = indicator + company item number + check digit |
| GtinAbstract.Construct | src/GtinAbstract.php:54-88 | the constructor succeeds exactly when the combined text fits the allowance or validates, and otherwise raises the check-digit error; it stores the upper-cased type and a null/0 level as 1, and `number` always ends in the check digit of the company item number |
| GtinAbstract.BuiltWithinAllowance | src/GtinAbstract.php:62-65 | within the allowance the constructor never throws and builds the number from prefix, padded item reference and check digit |
| GtinAbstract.CompleteNumberKept | src/GtinAbstract.php:66-76 | beyond the allowance an accepted number is the indicator followed by prefix and item verbatim |
| GtinAbstract.ConstructPassesThrough | src/GtinAbstract.php:62-76 | beyond the allowance the constructor is pass-through mode on the upper-cased type |
| GtinAbstract.ConstructBuilds | src/GtinAbstract.php:62-65 | within the allowance the constructor is construction mode on the upper-cased type |
| GtinAbstract.NoIndicatorValidates | src/GtinAbstract.php:82-86 | a number with no indicator, made of a body and the body's check digit, validates |
| GtinAbstract.ConstructedNumberValidates | src/GtinAbstract.php:54-88 | for every type other than GTIN-14, the number a successful constructor produces passes `validate` |
| GtinAbstract.Gtin14BuiltNumberFailsValidation | src/GtinAbstract.php:79 | a GTIN-14 built from digits with packaging level 1-9 never passes `validate`, because its check digit leaves out the packaging digit |
| GtinAbstract.GtinAbstract.Blank | src/GtinAbstract.php:37-43 | a fresh object has type GTIN-14, packaging level 1 and no prefix or item reference |
| GtinAbstract.GtinAbstract.ToString | src/GtinAbstract.php:95-98 | `__toString` returns the number |
| GtinAbstract.GtinAbstract.BuildCompanyItemNumber | src/GtinAbstract.php:136-159 | returns what `CompanyItemNumber` specifies; stores the prefix, and stores the raw item before a throw or the padded item otherwise; leaves type, level, check digit and number unchanged |
| GtinAbstract.GtinAbstract.CalculateCheckDigit | src/GtinAbstract.php:168-178 | the `for` loop returns exactly the specified check digit |
| GtinAbstract.GtinAbstract.AcceptComplete | src/GtinAbstract.php:66-76 | on a validating number the object ends in the pass-through state |
| GtinAbstract.GtinAbstract.BuildNumber | src/GtinAbstract.php:77-86 | the object ends in the construction-mode state |
| GtinAbstract.GtinAbstract.New | src/GtinAbstract.php:54-88 | the object is created exactly when `Construct` succeeds, with `Construct`'s state; otherwise its error is raised |
| GtinAbstract.GtinAbstract.Create | src/GtinAbstract.php:111-125 | `create` behaves as the constructor on the same arguments |
| Gtin8.TypeIsGtin8 | src/Gtin8.php:44-48 | the pinned type is already upper case, allows 7 digits and adds no indicator |
| Gtin8.AlwaysGtin8 | src/Gtin8.php:40-49 | every GTIN-8 object has type GTIN-8, packaging level 1 and a number that is company item number plus check digit |
| Gtin8.BuiltWithinSevenDigits | src/Gtin8.php:44-48 | up to seven digits the company item number is exactly 7 characters and `number` is 8 characters ending in its check digit, and it validates |
| Gtin8.CompleteBeyondSevenDigits | src/Gtin8.php:44-48 | beyond seven digits the object is created exactly when the text validates as GTIN-8; otherwise it throws, and on success `number` is the text verbatim |
| Gtin8.New | src/Gtin8.php:40-49 | `new Gtin8` is the shared constructor with type GTIN-8 and PHP's default packaging level 1 |
| Gtin8.Create | src/GtinAbstract.php:111-125 | the inherited `create` ignores the type and level it passes, so the result is the GTIN-8 constructor's |
| Gs1Code.TryFrom | src/Gs1Code.php:5-15 | a case is found only for its exact backing value, and nothing is found exactly for strings outside the eight values |
| Gs1Code.BackingValues | src/Gs1Code.php:7-14 | every backing value is one of the eight, and distinct cases have distinct values |
| Gs1Code.TryFromValue | src/Gs1Code.php:5-15 | looking up a case's own backing value gives that case |
| Gs1Code.TryFromExact | src/Gs1Code.php:5-15 | the lookup gives case `c` if and only if the string is `c`'s backing value |
| Gs1Code.OtherCodesRefused | src/Gs1Code.php:7-14 | "21", "00", "3201", and "1" and "2" without the leading zero, are refused |
| Gtin.Construct | src/Gtin.php:46-70 | every object the constructor returns has a check digit 0-9 equal to the check digit of its base number |
| Gtin.CutToFourteenDigits | src/Gtin.php:48-50 | an input of more than 14 digits behaves as its first 14 digits |
| Gtin.FourteenDigitParts | src/Gtin.php:53-55 | on 14 digits, `substr` and the casts give the first 13 digits as base number, the first digit as indicator and the last as check digit |
| Gtin.BaseFields | src/Gtin.php:56-57 | the prefix field is digits 2-8 of the base, and the item field is its last five digits |
| Gtin.PrefixField | src/Gtin.php:56 | `sprintf('%07d', substr($base, 1, -5))` on 13 digits is exactly digits 2-8 |
| Gtin.FourteenDigitBranch | src/Gtin.php:51-60 | a 14-digit input is accepted exactly when its last digit is the check digit of the first 13, and otherwise throws; the accepted object has base, prefix, item, check digit and indicator cut from the input, and the input as its number |
| Gtin.PaddedField | src/Gtin.php:63-64 | a digit string zero-padded to a width it fits is exactly that wide, all digits and keeps its value |
| Gtin.ShortPrefixField | src/Gtin.php:63 | for up to 12 digits the prefix is 7 digits worth all but the last five input digits |
| Gtin.ShortItemField | src/Gtin.php:64 | for up to 12 digits the item reference is 5 digits worth the last five input digits |
| Gtin.LeadingOneParts | src/Gtin.php:65 | "1" + prefix + item is 13 canonical digits from which the prefix and item are cut back |
| Gtin.ShortBaseDigits | src/Gtin.php:62-65 | for up to 12 digits the base text is 13 canonical digits starting with 1 and made of the padded prefix and item |
| Gtin.ShortNumber | src/Gtin.php:65-68 | the number written out is the base text followed by its check digit |
| Gtin.TextDigits | src/Gtin.php:48 | the text of the input is all digits (null is the empty text) |
| Gtin.ShortInputBranch | src/Gtin.php:61-68 | up to 12 digits the constructor never throws; indicator 1, a 7-digit prefix and 5-digit item worth the input's parts, and a 14-digit number starting with 1 whose last digit is the check digit of the rest |
| Gtin.ShortInputRebuilds | src/Gtin.php:51-68 | feeding back the number built from at most 12 digits takes the 14-digit branch, passes the check and gives back the same object |
| Gtin.ShortRebuild | src/Gtin.php:51-68 | the padded object's number, parsed again, yields the padded object itself |
| Gtin.BaseCheckDigit | src/Gtin.php:87-97 | the loop over the base number returns a digit 0-9 equal to the specified check digit |
| Gtin.Gtin.Blank | src/Gtin.php:32-37 | a fresh object has indicator 1 |
| Gtin.Gtin.ToString | src/Gtin.php:77-80 | `__toString` is the decimal text of the number |
| Gtin.Gtin.GetCheckDigit | src/Gtin.php:87-97 | `getCheckDigit` returns a digit 0-9 equal to the check digit of the base number |
| Gtin.Gtin.SplitNumber | src/Gtin.php:51-60 | the 14-digit branch stores the fields cut from the input and reports whether the stored check digit matches the base |
| Gtin.Gtin.PadNumber | src/Gtin.php:61-67 | the short branch stores the padded fields, the base and its check digit |
| Gtin.Gtin.New | src/Gtin.php:46-70 | the object is created exactly when `Construct` succeeds, with its state; otherwise the mismatch is raised |
| Gtin.Gtin.Create | src/Gtin.php:127-132 | `create` recomputes the check digit and leaves the object as the constructor made it |
| Gtin12.Construct | src/Gtin12.php:42-70 | every object the constructor returns has a check digit 0-9 equal to the check digit of its base number |
| Gtin12.CutToTwelveDigits | src/Gtin12.php:44-46 | an input of more than 12 digits behaves as its first 12 digits |
| Gtin12.TwelveDigitParts | src/Gtin12.php:49-51 | on 12 digits the casts give the first 11 digits as base, the first digit as indicator and the last as check digit |
| Gtin12.BaseFields | src/Gtin12.php:52-53 | the prefix field is "00" and digits 2-6 of the base, and the item field is its last five digits |
| Gtin12.PrefixField | src/Gtin12.php:52 | `sprintf('%07d', substr($base, 1, -5))` on 11 digits is "00" followed by digits 2-6 |
| Gtin12.PaddedFiveToSeven | src/Gtin12.php:52 | five digits zero-padded to seven get exactly two zeros in front |
| Gtin12.TwelveDigitBranch | src/Gtin12.php:47-56 | a 12-digit input is accepted exactly when its last digit is the check digit of the first 11, and otherwise throws; the accepted object has its fields cut from the input and the input as its number |
| Gtin12.ShortBranch | src/Gtin12.php:57-68 | fewer than 12 digits never throw and take the pad-and-build branch on the input's digits |
| Gtin12.ShortItemReference | src/Gtin12.php:58-64 | the prefix is kept; the item reference is the number zero-padded on the left to 11 minus the prefix length, or on the right when the prefix is longer than 11 |
| Gtin12.ShortItemDigits | src/Gtin12.php:60-64 | the item reference is all digits, never shorter than 11 minus the prefix length, and worth the number when the prefix leaves room |
| Gtin12.PaddedItemDigits | src/Gtin12.php:61-64 | zero padding keeps a number's text all digits and at least as wide as asked, and a left pad keeps its value |
| Gtin12.ShortBaseAndNumber | src/Gtin12.php:65-68 | the base number is the value of prefix + item reference, and the number is base × 10 + check digit |
| Gtin12.PaddedBase | src/Gtin12.php:65-68 | on digit inputs the base is the value of prefix + item reference, and the number is base × 10 + check digit |
| Gtin12.ZeroPaddedItem | src/Gtin12.php:61-64 | zero padding to any width, on either side, keeps a number's text all digits |
| Gtin12.AppendedDigit | src/Gtin12.php:68 | casting the base text followed by one digit gives base × 10 + digit |
| Gtin12.UpcAExample | tests/index.php:41-45 | item 123 with prefix "45678" gives item reference "000123" and number 456780001230 |
| Gtin12.ExampleCheckDigit | tests/index.php:41-45 | the check digit of 45678000123 is 0 |
| Gtin12.BuiltNumberReparses | src/Gtin12.php:47-68 | with a digit prefix without leading zero that leaves room for the number, the built number has exactly 12 digits; fed back with any prefix it takes the 12-digit branch without throwing and gives the same base, check digit and number |
| Gtin12.TwelveDigitRebuilt | src/Gtin12.php:47-56 | eleven digits without leading zero plus their check digit form a 12-digit number that is accepted and split back into those parts |
| Gtin12.BuiltBase | src/Gtin12.php:58-65 | under the same conditions prefix + item reference is 11 canonical digits not starting with 0 |
| Gtin12.BuiltBaseValue | src/Gtin12.php:65-68 | under the same conditions the base is the value of those 11 digits, the check digit is theirs, and the number is base × 10 + check digit |
| Gtin12.DigitAppended | src/Gtin12.php:68 | appending a digit to canonical text is the text of value × 10 + digit |
| Gtin12.Gtin12.Blank | src/Gtin12.php:31-42 | a fresh object has no indicator set |
| Gtin12.Gtin12.GetCheckDigit | src/Gtin.php:87-97 | the inherited `getCheckDigit` returns a digit 0-9 equal to the check digit of the base |
| Gtin12.Gtin12.SplitNumber | src/Gtin12.php:47-56 | the 12-digit branch stores the fields cut from the input and reports whether the stored check digit matches the base |
| Gtin12.Gtin12.PadNumber | src/Gtin12.php:57-67 | the short branch stores prefix, padded item, base and check digit, and leaves the indicator alone |
| Gtin12.Gtin12.New | src/Gtin12.php:42-70 | the object is created exactly when `Construct` succeeds, with its state; otherwise the mismatch is raised |
| Gtin12.Gtin12.Create | src/Gtin12.php:203-211 | `create` defaults the prefix to "1", recomputes the check digit and leaves the object as the constructor made it |
| Gs1.DelimiterLength | src/Gs1.php:46 | a delimiter found at the front is `(`, digits, `)`, at least two characters and within the text |
| Gs1.TextLength | src/Gs1.php:46 | a text piece never runs past the input and is not empty when no delimiter starts there |
| Gs1.SplitConcat | src/Gs1.php:46 | the pieces, delimiters included, put back together give the input: nothing is lost |
| Gs1.SplitPiecesNonEmpty | src/Gs1.php:46 | no piece is empty |
| Gs1.DelimiterOf | src/Gs1.php:46 | `(` + digits + `)` at the front is one delimiter of exactly that length |
| Gs1.TextLengthOfValue | src/Gs1.php:46 | a value without `(` followed by a delimiter or the end is one text piece |
| Gs1.Pieces | src/Gs1.php:46-52 | a sequence of elements has two pieces per element |
| Gs1.PiecesAppend | src/Gs1.php:46 | the pieces of joined element sequences are the joined pieces |
| Gs1.FirstElement | src/Gs1.php:46 | a well-formed element string starts with the delimiter of its first key |
| Gs1.SplitFirstElement | src/Gs1.php:46 | the first element of a well-formed element string splits off as a delimiter piece and a value piece |
| Gs1.SplitElementString | src/Gs1.php:46 | a well-formed element string splits into key delimiter, value, key delimiter, value, and so on |
| Gs1.LeadingTextShifts | src/Gs1.php:46-52 | text before the first delimiter shifts every delimiter to an odd index, where the loop never reads a key |
| Gs1.PiecesAt | src/Gs1.php:47-52 | piece 2i is the i-th key's delimiter and piece 2i+1 its value |
| Gs1.StripParens | src/Gs1.php:49 | removing parentheses never lengthens the text |
| Gs1.StripParensOfDelimiter | src/Gs1.php:49 | stripping a `(digits)` delimiter gives the digits |
| Gs1.StripParensKeeps | src/Gs1.php:49 | digits in front pass through the stripping unchanged |
| Gs1.DecodePrefix | src/Gs1.php:47-66 | the fields after the first pieces do not depend on the pieces that follow |
| Gs1.DecodeTwoMore | src/Gs1.php:47-63 | a further delimiter and value act like one more identifier read with that value |
| Gs1.DecodeElements | src/Gs1.php:47-66 | on the pieces of a well-formed element string the loop ends with exactly the fields of the reference reading, in which later identifiers override earlier ones |
| Gs1.ReadsElementString | src/Gs1.php:43-67 | the constructor reads a well-formed element string as its reference reading |
| Gs1.GtinFromEitherCode | src/Gs1.php:54-56 | AI 01 and AI 02 both set the GTIN to the value's integer reading, and a later one overrides an earlier one |
| Gs1.WeightsInHundredths | src/Gs1.php:57-60 | AI 3102 and 3302 set net and gross weight to the value's integer reading, in hundredths |
| Gs1.NetWeightWithExponent | src/Gs1.php:57-58 | a 3102 value written with an exponent is read with it: `(3102)1e3` is a net weight of 1000 hundredths |
| Gs1.UnitsFromCode37 | src/Gs1.php:61-62 | AI 37 sets the unit count |
| Gs1.OtherCodesInert | src/Gs1.php:50-63 | every other key changes nothing: unknown keys are skipped, and 10, 11 and 17 are recognised but set no field |
| Gs1.Gs1.constructor | src/Gs1.php:43-67 | the loop leaves the fields the reading of all the pieces gives, and the object keeps its input, which `__toString` returns |
| Gs1Generator.Lookup | src/Gs1Generator.php:56-63 | `$data[$k] ?? null` finds an entry with that key and value, and null only when no entry has the key |
| Gs1Generator.HeadLength | src/Gs1Generator.php:99 | the code part of a pattern match never runs past the text |
| Gs1Generator.HeadLengthFramed | src/Gs1Generator.php:99 | the code part matched is the code with an optional `(` before it and an optional `)` after it |
| Gs1Generator.ValueLength | src/Gs1Generator.php:104 | the value part of a match never runs past the text |
| Gs1Generator.ValueLengthFits | src/Gs1Generator.php:119-129 | the value matched has its pattern's form, and a digit run stops at 20 digits or at a non-digit |
| Gs1Generator.MatchAt | src/Gs1Generator.php:99 | a match found at a position starts there and lies within the text |
| Gs1Generator.MatchShape | src/Gs1Generator.php:99-134 | a match is a copy of the text at its position: a framed code, then the captured value of the pattern's form, with the digit run greedy |
| Gs1Generator.FindFrom | src/Gs1Generator.php:104 | a search from a position returns a genuine match at or after it |
| Gs1Generator.FindFromLeftmost | src/Gs1Generator.php:104 | the match found is the leftmost: no match starts between the search position and it |
| Gs1Generator.FindFromNone | src/Gs1Generator.php:104 | when nothing is found, no position from the start on holds a match |
| Gs1Generator.FindFromSkips | src/Gs1Generator.php:104 | a position without a match is skipped |
| Gs1Generator.Find | src/Gs1Generator.php:104-134 | `preg_match` returns the leftmost match, or none when no position matches |
| Gs1Generator.RemoveAll | src/Gs1Generator.php:102 | `str_replace` never lengthens the scratch string |
| Gs1Generator.Strip | src/Gs1Generator.php:100-103 | a value is captured exactly when the pattern matched, and it is the match's captured text |
| Gs1Generator.RemoveAllAbsent | src/Gs1Generator.php:102 | where the matched text does not occur, `str_replace` changes nothing |
| Gs1Generator.RemoveAllLeading | src/Gs1Generator.php:102 | an occurrence at the front is deleted |
| Gs1Generator.RemoveAllKeepsFront | src/Gs1Generator.php:102 | text before the first occurrence is kept verbatim |
| Gs1Generator.MatchFramed | src/Gs1Generator.php:99-134 | `(code)` followed by a value of the pattern's form is matched at the front, capturing that value |
| Gs1Generator.HeadOfFramed | src/Gs1Generator.php:99 | in `(code)…` the code part is the whole bracketed code |
| Gs1Generator.ValueOfFitting | src/Gs1Generator.php:104-134 | a value of the pattern's form, ending where the digits end for a run, is matched whole |
| Gs1Generator.LeadingDigitsStop | src/Gs1Generator.php:129-134 | the digit run stops at the first non-digit |
| Gs1Generator.LeadingDigitsAtLeast | src/Gs1Generator.php:129-134 | the digit run covers every leading digit |
| Gs1Generator.ScanFits | src/Gs1Generator.php:104-138 | every value a pattern captures has that pattern's form |
| Gs1Generator.ParseLeavesUnset | src/Gs1Generator.php:94-140 | `parse` keeps the input as `gs1` and never sets the SSCC, the content, the pieces or the data |
| Gs1Generator.ParsedFixedFieldsWellFormed | src/Gs1Generator.php:99-128 | a parsed GTIN is 14 digits, a gross weight is below 1000000 hundredths, and both dates are YYMMDD with month 00-12 and day 00-31 |
| Gs1Generator.ParsedRunsWellFormed | src/Gs1Generator.php:129-138 | a parsed batch or serial number is a run of 1 to 20 digits |
| Gs1Generator.GtinOnlyAtStart | src/Gs1Generator.php:99-103 | a parsed GTIN is read only at the very start: `01` with optional parentheses, directly followed by the 14 digits stored |
| Gs1Generator.ParsedGtin | src/Gs1Generator.php:99-103 | only the anchored first pattern sets the GTIN |
| Gs1Generator.GtinMatchAtStart | src/Gs1Generator.php:99 | the anchored pattern matches only a framed `01` and 14 digits at position 0 |
| Gs1Generator.GtinAtStart | src/Gs1Generator.php:99-103 | `(01)` and 14 digits at the start are always read as the GTIN, whatever follows |
| Gs1Generator.LetteredValueNotCaptured | src/Gs1Generator.php:129-138 | a value that does not start with a digit is not captured after its code |
| Gs1Generator.LetteredBatchNotCaptured | src/Gs1Generator.php:129-133 | `(10)ABC123` gives no batch match at its code |
| Gs1Generator.PoundsOverrideNetWeight | src/Gs1Generator.php:104-118 | when the 3201 pattern matches in what the earlier patterns left, its conversion replaces any 3102 net weight; otherwise the 3102 value stays, and a 3201 value is six digits |
| Gs1Generator.RenderStartsWithGtin | src/Gs1Generator.php:149 | `__toString` always starts with `(01)` and the GTIN |
| Gs1Generator.FalsyValuesOmitted | src/Gs1Generator.php:150-156 | a "0" or "" text value and a zero weight print exactly as null does |
| Gs1Generator.WeightPadding | src/Gs1Generator.php:155-156 | a weight of 1 to 999999 hundredths prints as six characters: zeros in front for 3102, behind for 3302 |
| Gs1Generator.GrossWeightPaddedOnTheRight | src/Gs1Generator.php:155-156 | 7 hundredths print as `(3102)000007` but as `(3302)700000` |
| Gs1Generator.RenderedGtinReadBack | src/Gs1Generator.php:99-103 | a 14-digit GTIN written by `__toString` is read back by `parse` |
| Gs1Generator.SelectAppend | src/Gs1Generator.php:69-87 | `get` over joined data is the join of `get` over each part |
| Gs1Generator.SelectCodeOrderIrrelevant | src/Gs1Generator.php:73 | only which codes are requested matters, not their order or repetition |
| Gs1Generator.SelectSkips | src/Gs1Generator.php:71-75 | entries whose key is not requested contribute nothing |
| Gs1Generator.SelectEmpty | src/Gs1Generator.php:69-87 | `get` prints nothing exactly when no entry's key is among the requested codes |
| Gs1Generator.Gs1Generator.Get | src/Gs1Generator.php:69-87 | `get` on the object is the selection over its data, empty exactly when no key is requested |
| Gs1Generator.Gs1Generator.ToString | src/Gs1Generator.php:147-158 | `__toString` on the object renders its fields and always begins with `(01)` and the GTIN |
| Gs1Generator.SelectOne | src/Gs1Generator.php:76-82 | a requested entry prints as `(key)value`, with 3102 and 3302 values left-padded with zeros to six |
| Gs1Generator.SelectFollowsDataOrder | src/Gs1Generator.php:69-87 | entries print in the data's order: data 17 then 1 with codes 1 then 17 prints 17 first |
| Gs1Generator.ConstructorKeysAsWritten | src/Gs1Generator.php:59-61 | a value stored under key 17 is printed by `get` as `(17)` but by `__toString` as `(10)`, because the constructor files it as the batch |
| Gs1Generator.SelectGtinAndBatch | src/Gs1Generator.php:69-87 | `get(['17'])` on a GTIN and a key-17 entry prints only the latter |
| Gs1Generator.FromDataGtinAndBatch | src/Gs1Generator.php:53-67 | the constructor on a GTIN and a key-17 entry sets only the GTIN and the batch |
| Gs1Generator.LookupPair | src/Gs1Generator.php:56-63 | a lookup in two entries finds the first entry with the key |
| Gs1Generator.LookupDistinct | src/Gs1Generator.php:56-63 | when each key is held once, as in a PHP array, every entry is found under its own key with its own value |
| Gs1Generator.RenderGtinAndBatch | src/Gs1Generator.php:147-158 | a record holding only a GTIN and a truthy batch prints `(01)` GTIN `(10)` batch |
| Gs1Generator.Gs1Generator.constructor | src/Gs1Generator.php:53-67 | the object holds the data and the fields the key mapping gives, with 3201 overriding the 3102 net weight |
| Gs1Generator.Gs1Generator.Parse | src/Gs1Generator.php:94-140 | `parse` returns a new object whose state is that of the eight patterns applied in order to the scratch string |
| Gs1Generator.Gs1Generator.ReadGtin | src/Gs1Generator.php:99-103 | the 01 step sets the GTIN on a match and deletes the matched text |
| Gs1Generator.Gs1Generator.ReadNetWeight | src/Gs1Generator.php:104-108 | the 3102 step sets the net weight in hundredths on a match and deletes the matched text |
| Gs1Generator.Gs1Generator.ReadGrossWeight | src/Gs1Generator.php:109-113 | the 3302 step sets the gross weight in hundredths on a match and deletes the matched text |
| Gs1Generator.Gs1Generator.ReadPounds | src/Gs1Generator.php:114-118 | the 3201 step overwrites the net weight on a match and deletes the matched text |
| Gs1Generator.Gs1Generator.ReadProductionDate | src/Gs1Generator.php:119-123 | the 11 step sets the production date on a match and deletes the matched text |
| Gs1Generator.Gs1Generator.ReadExpirationDate | src/Gs1Generator.php:124-128 | the 17 step sets the expiration date on a match and deletes the matched text |
| Gs1Generator.Gs1Generator.ReadBatch | src/Gs1Generator.php:129-133 | the 10 step sets the batch on a match and deletes the matched text |
| Gs1Generator.Gs1Generator.ReadSerial | src/Gs1Generator.php:134-138 | the 21 step sets the serial number on a match and deletes the matched text |

## Left out

- Barcode rendering, image output and file saving (`getBarcode`, `renderBarcode`, `barcode`, `getBarcodeSource`, `saveBarcode`, `saveWithNumber` and the `Gs1Generator` and `Gtin12`/`Gtin8` renderers). They call foreign rendering libraries and write files.
- Floating-point weights. Weights are integer hundredths. The float conversions are function parameters of the model: `round($v * 100)` and the division by 0.45359237 in the `Gs1Generator` constructor, and the pounds conversion `/10/2.205` in `parse`. `Gs1`'s and `parse`'s division by 100 is kept as the undivided integer, i.e. hundredths.
- `TypeError`s under `strict_types`. Several `?int` properties of `Gs1Generator` receive strings. `Gtin12` assigns a null prefix to a `string` property. These fields hold the text in the model.
- `parse` as written throws on every input: its first assignment stores the input string in the `?int` property `$gs1` (src/Gs1Generator.php:34, 97), a `TypeError` under `strict_types`. `Gs1Generator.ParseSpec` and `Gs1Generator.Gs1Generator.Parse` model the evident intent instead, keeping the text in `gs1`.
- A null `$type` (src/GtinAbstract.php:57, 60). `strtoupper(null)` is a `TypeError` under `strict_types`, so the constructor and `create` throw, while `validate` returns false from its catch (src/GtinAbstract.php:357-359). The model's type is always a string.
- A null `$gs1` passed to `new Gs1` (src/Gs1.php:43-45) is stored in a `string` property, a `TypeError`. The model's argument is always a string.
- PHP strings are bytes, model strings are characters: `strlen`, `str_pad` and `substr` agree only on ASCII text, and multi-byte characters are not modelled.
- Decimal.IntValue: reads the number exactly, while PHP converts a string with a fraction or an exponent to a double first, so a reading that the double rounds (more than about 15 significant digits, or beyond 64 bits) can differ.
- Gs1Generator.Lookup: the data is a list of entries where a PHP array holds each key once. With a repeated key the model takes the first entry, where PHP keeps the last value at the first key's position; `Gs1Generator.DistinctKeys` states the PHP shape, and `Gs1Generator.LookupDistinct` holds under it.
- Errors for typed properties that are never initialised (for example `Gs1`'s fields when no key sets them, or `$gs1` of `Gs1Generator` after the constructor). They are `None` in the model.
- The `echo` of the base number in `Gtin`'s 14-digit branch, and the gettext helpers around exception messages. Exceptions are modelled as `Result` errors without their message text.
- Laravel's `collect()` in `parse`. Its result is overwritten at once.
- PHP's loose key comparison in `get` (`in_array`, `==`). AI keys are text compared exactly, and an integer key is its decimal spelling.
- 64-bit integer overflow and negative item numbers. Numbers are unbounded naturals.
- `generate()`, which has an empty body.
- The parent class of `Gtin12` is not part of this model. Its check-digit loop is taken to be `Gtin`'s `getCheckDigit`, the same algorithm. Its `indicator` default is unknown, so a fresh `Gtin12` has none.
- The `$indicator` argument of `Gtin12`'s constructor is accepted and never used.
- A null company prefix is modelled as the empty text, which is what string casts and concatenation make of it.
- `Gs1`'s local `$array` is written and never read.
- A key piece with no piece after it reads a missing array element: PHP raises a warning and casts null to 0. The model uses 0.
- `get` with `null` as the code list fails inside `in_array`. The model takes a list.
- The Laravel facades and service provider, the demo scripts and the unit test of a class not among these files.
- Gs1Generator.LetteredBatchNotCaptured: states only that no match starts at the `(10)` itself, not that no batch is found anywhere in that input.
- Gs1Generator.RenderedGtinReadBack: only the GTIN is claimed to survive a `__toString`/`parse` round trip. Gross weight is padded on the right when written, and other fields are not all read back.
- Gtin12.ShortItemDigits: the item reference's value is stated only when the prefix leaves room (at most 11 characters). A longer prefix pads on the right, which multiplies the value.
