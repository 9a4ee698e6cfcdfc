# Credit-card statement parser: a verified model of `parse_statement`

This project models the core of a script that pulls structured fields out of
credit-card statements issued by five Indian banks. `parse_statement`
(`universal_parser.py`) does four things:

1. **Joins the pages.** It concatenates the text of every page of the
   statement in page order. A page that yields no text adds `""`.
2. **Detects the issuer.** It walks the registry `BANK_PATTERNS` in its fixed
   order (HDFC, ICICI, SBI, AXIS, KOTAK) and picks the first issuer whose
   identifier string (`"HDFC Bank"`, `"ICICI Bank"`, `"SBI Card"`,
   `"Axis Bank"`, `"Kotak"`) occurs in the text.
3. **Extracts every field.** For that issuer it searches the whole text with
   each of its five field patterns in order, and stores capture group 1 of the
   leftmost match, stripped of outer whitespace. The first field that finds
   nothing ends the statement with no record.
4. **Builds the record.** A record is `Issuer` (the display identifier, not
   the registry code) followed by the five fields.

Modules:

- `Wrappers`: `Option` and `Result`.
- `PyText`: Python's `str.isspace` character set, `str.strip`, and
  `needle in text`.
- `PyDict`: a Python dict from strings to strings. It is an insertion-ordered
  list of pairs, updated by `d[k] = v`.
- `Patterns`: field patterns and how they are searched.
  - Every card-number pattern has the shape `lead (\d{4})`. Here the lead is
    literal text and `\s*`/`\s+` runs, and the model carries its own matcher
    for it.
  - The model proves that the matcher's greedy whitespace runs find exactly
    the matches a backtracking engine would find.
  - It also proves that the matcher returns the leftmost match.
  - Every other pattern is searched by an `Engine` parameter that stands for
    `re.compile(source).search(text).group(1)`.
- `Registry`: `BANK_PATTERNS` as an ordered sequence of profiles (code,
  identifier, fields in order). The twenty other patterns keep their source
  text verbatim. Each card-number pattern is written as the literal and
  whitespace pieces of its lead.
- `UniversalParser`:
  - the specification functions `JoinPages`, `Detect`, `ExtractFrom` and
    `ParseText`;
  - the imperative `ParseStatement`, whose three loops mirror the source and
    are proved equal to `ParseText`.
- `ParserProperties`: first-match detection, fail-fast extraction, and the
  record's keys and values.
- `ParserExamples`: worked statements, such as an HDFC statement, a text that
  names no issuer, and a text that names both Kotak and HDFC.

The source returns `None` for both kinds of failure and only prints the
reason. The model returns the reason as a value: `UnknownIssuer`, or
`MissingField(field, code)` naming the field and the issuer's registry code,
as the source's message does.

## Model

| member | source | states |
|---|---|---|
| `UniversalParser.ParseStatement` | universal_parser.py:58-88 | The result of the three loops (page joining, detection with `break`, extraction with early return) equals `ParseText` on the registry and the joined page text. |
| `UniversalParser.JoinPagesAppend` | universal_parser.py:61-63 | The text of a statement split into two page runs is the first run's text followed by the second's. |
| `UniversalParser.JoinPagesAt` | universal_parser.py:61-63 | Page `i` contributes its own text, or `""`, exactly between the text of the pages before it and the text of the pages after it. |
| `UniversalParser.PageWithoutTextAddsNothing` | universal_parser.py:63 | A page that yields no text leaves the full text as if the page were absent. |
| `UniversalParser.BlankPagesJoinEmpty` | universal_parser.py:61-63 | A statement none of whose pages yields text has the empty text. |
| `UniversalParser.DetectFrom` | universal_parser.py:67-70 | From a registry position on, the result is the first entry whose identifier occurs in the text, with no earlier one occurring. It is none exactly when no identifier from there on occurs. |
| `UniversalParser.Detect` | universal_parser.py:66-74 | The detected issuer is the first registry entry whose identifier occurs in the text, and no earlier entry's identifier occurs. There is no issuer exactly when no identifier occurs. |
| `UniversalParser.ExtractFrom` | universal_parser.py:80-84 | A failed extraction names a field whose pattern found nothing, together with the issuer's code. |
| `ParserProperties.UnknownIssuerIff` | universal_parser.py:66-74 | The parse fails with `UnknownIssuer` if and only if no registry identifier occurs in the text. |
| `ParserProperties.BlankStatementIsUnknown` | universal_parser.py:61-74 | Given non-empty identifiers, a statement whose pages yield no text fails with `UnknownIssuer`. |
| `ParserProperties.ExtractStopsAt` | universal_parser.py:80-84 | The first field, in order, whose pattern finds nothing ends the extraction with `MissingField` naming that field. |
| `ParserProperties.ExtractSuccessFoundAll` | universal_parser.py:80-86 | An extraction succeeds only if every remaining field's pattern finds a match. |
| `ParserProperties.ExtractSucceeds` | universal_parser.py:80-86 | When every remaining field's pattern finds a match, the extraction succeeds. |
| `ParserProperties.ExtractKeys` | universal_parser.py:78-86 | A successful extraction adds one key per field, in field order, after the keys already there. |
| `ParserProperties.ExtractKeepsOthers` | universal_parser.py:78-86 | A successful extraction leaves the value of every key that is not a remaining field's name unchanged. |
| `ParserProperties.ExtractAppends` | universal_parser.py:78-86 | With field names new to the dict, a complete extraction appends each field's name and its stripped capture, in field order. |
| `ParserProperties.ExtractValues` | universal_parser.py:81-86 | After a successful extraction, each field's name holds the stripped group 1 that its pattern found in the whole text. |
| `ParserProperties.ExtractIgnoresLaterFields` | universal_parser.py:80-84 | Fields after the first missing one are never examined: engines that agree up to that field give the same result. |
| `ParserProperties.ParseFailsFast` | universal_parser.py:77-84 | For the detected issuer, the first field whose pattern finds nothing makes the whole parse fail with `MissingField(field, code)`, and no record is produced. |
| `ParserProperties.ParseIgnoresLaterFields` | universal_parser.py:80-84 | Once a field is missing, the answers for the detected issuer's later fields do not change the parse result. |
| `ParserProperties.ParseSuccessIff` | universal_parser.py:66-86 | The parse yields a record if and only if an issuer is detected and every one of its field patterns finds a match. |
| `ParserProperties.ExtractRecord` | universal_parser.py:78-86 | Extraction seeded with the issuer column yields keys `Issuer` plus the field names in order. `Issuer` keeps the identifier, and each field holds its stripped capture. |
| `ParserProperties.ParseRecord` | universal_parser.py:77-88 | A successful record's keys are exactly `Issuer` followed by the detected issuer's field names. `Issuer` holds the display identifier, not the code. Each field holds its pattern's stripped group 1 over the full text. |
| `ParserProperties.ParsedValuesAreStripped` | universal_parser.py:78-86 | Given unpadded identifiers, every value of a successful record has no leading or trailing whitespace. |
| `ParserProperties.RegistryValuesAreStripped` | universal_parser.py:78-86 | For the registry itself, every value of a successful record, the issuer column included, has no leading or trailing whitespace. |
| `ParserProperties.RecordColumns` | universal_parser.py:5-56 | A successful record from the registry has the keys `Issuer`, `Cardholder Name`, `Card Number (Last 4 Digits)`, `Statement Date`, `Payment Due Date`, `Total Amount Due`, in that order. |
| `ParserProperties.CardNumberIsFourDigits` | universal_parser.py:10 | For any registry whose card patterns have the concrete shape, whatever the engine, a successful record's card number is exactly four decimal digits. |
| `ParserProperties.RegistryCardNumberIsFourDigits` | universal_parser.py:10-50 | For every issuer of the registry, a successful record's card number is exactly four decimal digits. |
| `Registry.BankPatternsShape` | universal_parser.py:5-56 | The registry has five issuers with distinct codes. Each identifier is non-empty, unpadded and differs from its code. Every issuer lists the same five fields in the same order, with no name twice and none named `Issuer`. Every card-number pattern is an anchored `lead (\d{4})`. |
| `Registry.StandardFieldsValid` | universal_parser.py:8-14 | The five standard field names are distinct, none is `Issuer`, and only the second is the card-number field. |
| `Patterns.GreedyIsExact` | universal_parser.py:20 | For an anchored lead, the greedy matcher ends at `k` exactly when the regular-expression meaning of the lead, with backtracking over `\s*`/`\s+`, matches up to `k`. |
| `Patterns.MatchAtIsExact` | universal_parser.py:30 | At a given start, the matcher returns `g` exactly when `lead (\d{4})` matches there with group 1 equal to `g`. |
| `Patterns.SearchIsLeftmost` | universal_parser.py:81 | The search finds nothing exactly when no position matches, and otherwise returns the match at the leftmost matching position. |
| `Patterns.CardSearchIsFourDigits` | universal_parser.py:40 | Whatever the engine, a card-number search that finds something finds exactly four decimal digits. |
| `PyText.Strip` | universal_parser.py:86 | The result has no outer whitespace and is a slice of the input with only whitespace on either side of it. |
| `PyText.StripKeeps` | universal_parser.py:86 | Stripping a string that has no outer whitespace leaves it unchanged. |
| `PyText.StripIdempotent` | universal_parser.py:86 | Stripping twice is the same as stripping once. |
| `PyText.ContainsIff` | universal_parser.py:68 | `needle in text` holds exactly when the needle occurs at some position of the text. |
| `PyText.EmptyTextContainsNothing` | universal_parser.py:68 | The empty text contains only the empty needle. |
| `PyDict.PutGet` | universal_parser.py:86 | After `d[k] = v`, looking up `k` gives `v`. |
| `PyDict.PutKeys` | universal_parser.py:86 | `d[k] = v` keeps the key order, and a new key goes to the end. |
| `PyDict.PutKeepsOthers` | universal_parser.py:86 | `d[k] = v` leaves every other key's value unchanged. |
| `PyDict.GetFinds` | universal_parser.py:86 | A lookup finds a value exactly when the key is present, and the value is stored under that key. |
| `ParserExamples.NoIssuerNamed` | universal_parser.py:66-74 | A text lacking the letters `H`, `I`, `x` and `K` (for instance "Some Other Bank Statement") fails with `UnknownIssuer`, whatever the engine. |
| `ParserExamples.SomeOtherBank` | universal_parser.py:66-74 | The statement "Some Other Bank Statement" fails with `UnknownIssuer`, whatever the engine. |
| `ParserExamples.RegistryOrderDecides` | universal_parser.py:67-70 | A text naming Kotak first and HDFC later is detected as HDFC, because registry order decides, not position in the text. |
| `ParserExamples.HdfcStatement` | universal_parser.py:6-15 | The card-number value is four digits. An HDFC statement whose five searches find their groups yields `Issuer: "HDFC Bank"` and the five stripped values, in registry order. |
| `ParserExamples.HdfcOpening` | universal_parser.py:10 | In a statement opening with `XXXX XXXX XXXX ` and four digits, and naming HDFC later, the HDFC card-number pattern finds those four digits. |

## Left out

- Opening the statement with `pdfplumber` and extracting each page's text (universal_parser.py:1, 60, 63) use a foreign library. The pages arrive as a sequence of optional strings, and a page that yields no text is `None`.
- Python's `re` engine, for every pattern except the card-number ones, is a foreign library. Its search is the `Engine` parameter, which returns group 1 of the leftmost match or nothing. The meaning of `[A-Z\s]+`, `\w`, `[\d,]+` and the `₹` literal is therefore not modelled.
- Patterns.MatchAt: `\d` is modelled as the ASCII digits `0`-`9`. Python's `\d` in a str pattern also accepts every other Unicode decimal digit, so the modelled card-number matcher rejects, for example, Devanagari digits that the source would accept.
- Registry.BankPatterns: the registry is a sequence in the dict literal's iteration order. Looking up `BANK_PATTERNS[detected_bank]` by code becomes indexing by the detected position, which selects the same entry because the codes are distinct.
- Building the `pandas.DataFrame` (universal_parser.py:88) uses a foreign library. The record is the insertion-ordered dict that would be passed to it.
- The catch-all exception handler (universal_parser.py:90-92) is not modelled. It turns a failure to open or read the document into `None`. The diagnostic `print` calls (universal_parser.py:73, 83) are logging, and the model returns their content as the failure value instead.
- `main.py` is not part of this model. It is the driver: it lists the directory, filters `.pdf` names, concatenates the records into one table in a fixed column order, and prints it. The batch aggregation therefore has no counterpart here. `RecordColumns` shows that each record already carries those columns in that order.
