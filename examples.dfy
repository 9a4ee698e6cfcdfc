/** Worked statements for the model of `parse_statement`: each lemma fixes
    the regular-expression engine only on the searches its statement needs. */
module ParserExamples {
  import opened Wrappers
  import opened PyText
  import opened PyDict
  import opened Patterns
  import opened Registry
  import opened UniversalParser
  import opened ParserProperties

  /** A needle holding a character the text lacks does not occur in it. */
  lemma MissingCharRulesOut(text: string, needle: string, c: char)
    requires c in needle && c !in text
    ensures !Contains(text, needle)
  {
    if Contains(text, needle) {
      ContainsOnlyTextChars(text, needle, c);
    }
  }

  /** No registered identifier occurs in a text lacking the characters
      `H`, `I`, `x` and `K`. */
  lemma NoIdentifierIn(text: string)
    requires 'H' !in text && 'I' !in text && 'x' !in text && 'K' !in text
    ensures forall k :: 0 <= k < |BankPatterns| ==> !Contains(text, BankPatterns[k].identifier)
  {
    MissingCharRulesOut(text, Hdfc.identifier, 'H');
    MissingCharRulesOut(text, Icici.identifier, 'I');
    MissingCharRulesOut(text, Sbi.identifier, 'I');
    MissingCharRulesOut(text, Axis.identifier, 'x');
    MissingCharRulesOut(text, Kotak.identifier, 'K');
  }

  /** Such a text, "Some Other Bank Statement" for one, yields no record,
      whatever the engine. */
  lemma NoIssuerNamed(text: string, engine: Engine)
    requires 'H' !in text && 'I' !in text && 'x' !in text && 'K' !in text
    ensures ParseText(BankPatterns, text, engine) == Failure(UnknownIssuer)
  {
    NoIdentifierIn(text);
    UnknownIssuerIff(BankPatterns, text, engine);
  }

  /** The statement "Some Other Bank Statement" names no registered issuer. */
  lemma SomeOtherBank(engine: Engine)
    ensures ParseText(BankPatterns, "Some Other Bank Statement", engine) == Failure(UnknownIssuer)
  {
    NoIssuerNamed("Some Other Bank Statement", engine);
  }

  /** A text that names HDFC belongs to HDFC, whichever other identifiers it
      names and wherever they stand: HDFC is registered first. */
  lemma HdfcComesFirst(text: string)
    requires Contains(text, Hdfc.identifier)
    ensures Detect(BankPatterns, text) == Some(0)
  {
  }

  /** Kotak's identifier first, HDFC's anywhere later: HDFC still wins. */
  lemma RegistryOrderDecides(middle: string, rest: string)
    ensures Contains("Kotak" + middle + "HDFC Bank" + rest, Kotak.identifier)
    ensures Detect(BankPatterns, "Kotak" + middle + "HDFC Bank" + rest) == Some(0)
  {
    ContainsPiece("", "Kotak", middle + "HDFC Bank" + rest);
    assert "" + "Kotak" + (middle + "HDFC Bank" + rest) == "Kotak" + middle + "HDFC Bank" + rest;
    ContainsPiece("Kotak" + middle, "HDFC Bank", rest);
    HdfcComesFirst("Kotak" + middle + "HDFC Bank" + rest);
  }

  /** HDFC's card pattern finds the four digits right after the masked
      prefix the text opens with. */
  lemma HdfcCardAtStart(digits: string, rest: string, engine: Engine)
    requires |digits| == 4 && AllDigits(digits)
    ensures Search(Hdfc.fields[1].pattern, Masked + digits + rest, engine) == Some(digits)
  {
    var text := Masked + digits + rest;
    assert text[..|Masked|] == Masked;
    assert OccursAt(text, Masked, 0);
    assert MatchLead([Lit(Masked)], text, 0) == Some(|Masked|);
    assert text[|Masked|..|Masked| + 4] == digits;
  }

  /** The captures of a five-field profile, spelled out. */
  lemma CapturesOfFive(f: seq<Field>, text: string, engine: Engine)
    requires |f| == 5 && forall m :: 0 <= m < 5 ==> Search(f[m].pattern, text, engine).Some?
    ensures Captures(f, text, engine, 0) == [
      (f[0].name, Strip(Search(f[0].pattern, text, engine).value)),
      (f[1].name, Strip(Search(f[1].pattern, text, engine).value)),
      (f[2].name, Strip(Search(f[2].pattern, text, engine).value)),
      (f[3].name, Strip(Search(f[3].pattern, text, engine).value)),
      (f[4].name, Strip(Search(f[4].pattern, text, engine).value))]
  {
    var p0 := (f[0].name, Strip(Search(f[0].pattern, text, engine).value));
    var p1 := (f[1].name, Strip(Search(f[1].pattern, text, engine).value));
    var p2 := (f[2].name, Strip(Search(f[2].pattern, text, engine).value));
    var p3 := (f[3].name, Strip(Search(f[3].pattern, text, engine).value));
    var p4 := (f[4].name, Strip(Search(f[4].pattern, text, engine).value));
    assert Captures(f, text, engine, 4) == [p4] + Captures(f, text, engine, 5);
    assert Captures(f, text, engine, 3) == [p3] + Captures(f, text, engine, 4);
    assert Captures(f, text, engine, 2) == [p2] + Captures(f, text, engine, 3);
    assert Captures(f, text, engine, 1) == [p1] + Captures(f, text, engine, 2);
    assert Captures(f, text, engine, 0) == [p0] + Captures(f, text, engine, 1);
  }

  /** A text naming HDFC in which every HDFC pattern finds its group
      yields the issuer's identifier followed by the captured pairs. */
  lemma HdfcRecord(text: string, engine: Engine)
    requires Contains(text, Hdfc.identifier)
    requires forall m :: 0 <= m < 5 ==> Search(Hdfc.fields[m].pattern, text, engine).Some?
    ensures ParseText(BankPatterns, text, engine)
            == Success([(IssuerKey, "HDFC Bank")] + Captures(Hdfc.fields, text, engine, 0))
  {
    HdfcComesFirst(text);
    HdfcShape();
    StandardFieldsValid(Hdfc.fields);
    assert Keys([(IssuerKey, "HDFC Bank")]) == [IssuerKey];
    ExtractAppends(Hdfc.fields, "HDFC", text, engine, 0, [(IssuerKey, "HDFC Bank")]);
  }

  /** An HDFC statement: the record holds the issuer's identifier, then
      each field in the registry's order with the group its pattern
      captured, stripped; the card number, four digits, is kept as it is. */
  lemma HdfcStatement(text: string, engine: Engine,
                      name: string, card: string, issued: string, due: string, total: string)
    requires Contains(text, Hdfc.identifier)
    requires Search(Hdfc.fields[0].pattern, text, engine) == Some(name)
    requires Search(Hdfc.fields[1].pattern, text, engine) == Some(card)
    requires Search(Hdfc.fields[2].pattern, text, engine) == Some(issued)
    requires Search(Hdfc.fields[3].pattern, text, engine) == Some(due)
    requires Search(Hdfc.fields[4].pattern, text, engine) == Some(total)
    ensures |card| == 4 && AllDigits(card)
    ensures ParseText(BankPatterns, text, engine) == Success([(IssuerKey, "HDFC Bank")] + [
      (CardholderName, Strip(name)),
      (CardNumber, card),
      (StatementDate, Strip(issued)),
      (PaymentDueDate, Strip(due)),
      (TotalAmountDue, Strip(total))])
  {
    var f := Hdfc.fields;
    HdfcShape();
    CardSearchIsFourDigits(f[1].pattern.lead, text, engine);
    DigitsHaveNoOuterSpace(card);
    StripKeeps(card);
    HdfcShape();
    assert forall m :: 0 <= m < 5 ==> Search(f[m].pattern, text, engine).Some?;
    HdfcRecord(text, engine);
    CapturesOfFive(f, text, engine);
    assert f[0].name == CardholderName && f[1].name == CardNumber && f[2].name == StatementDate;
    assert f[3].name == PaymentDueDate && f[4].name == TotalAmountDue;
    assert Captures(f, text, engine, 0) == [
      (CardholderName, Strip(name)),
      (CardNumber, card),
      (StatementDate, Strip(issued)),
      (PaymentDueDate, Strip(due)),
      (TotalAmountDue, Strip(total))];
  }

  /** A statement that opens with its masked card number and names HDFC
      later on, for instance "XXXX XXXX XXXX 1234\nHDFC Bank\n...": the
      card number is the four digits, whatever the engine. */
  lemma HdfcOpening(digits: string, before: string, after: string, engine: Engine)
    requires |digits| == 4 && AllDigits(digits)
    ensures Contains(Masked + digits + (before + "HDFC Bank" + after), Hdfc.identifier)
    ensures Search(Hdfc.fields[1].pattern, Masked + digits + (before + "HDFC Bank" + after), engine) == Some(digits)
  {
    ContainsPiece(Masked + digits + before, "HDFC Bank", after);
    assert Masked + digits + before + "HDFC Bank" + after == Masked + digits + (before + "HDFC Bank" + after);
    HdfcCardAtStart(digits, before + "HDFC Bank" + after, engine);
  }
}
