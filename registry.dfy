/** The static registry of supported issuers: for each one, the substring
    that identifies its statements and its five field patterns, in order. */
module Registry {
  import opened PyText
  import opened Patterns

  /** The record key that holds the issuer's display identifier. */
  const IssuerKey := "Issuer"

  const CardholderName := "Cardholder Name"
  const CardNumber := "Card Number (Last 4 Digits)"
  const StatementDate := "Statement Date"
  const PaymentDueDate := "Payment Due Date"
  const TotalAmountDue := "Total Amount Due"

  /** The five field names every issuer defines, in the order it defines them. */
  const FieldOrder: seq<string> :=
    [CardholderName, CardNumber, StatementDate, PaymentDueDate, TotalAmountDue]

  datatype Field = Field(name: string, pattern: Pattern)

  /** One issuer: its registry key, the identifier substring whose presence
      marks its statements, and its field patterns in order. */
  datatype Profile = Profile(code: string, identifier: string, fields: seq<Field>)

  /** The literal that precedes the last four digits in every card-number pattern. */
  const Masked := "XXXX XXXX XXXX "

  /** The registry, in its iteration order (that of the dict literal). */
  const BankPatterns: seq<Profile> := [Hdfc, Icici, Sbi, Axis, Kotak]

  const Hdfc := Profile("HDFC", "HDFC Bank", [
    Field(CardholderName, Compiled(@"MR\s+([A-Z\s]+)")),
    Field(CardNumber, CardSuffix([Lit(Masked)])),
    Field(StatementDate, Compiled(@"Statement Date\s*:\s*(\d{2}/\d{2}/\d{4})")),
    Field(PaymentDueDate, Compiled(@"Payment Due Date\s*:\s*(\d{2}/\d{2}/\d{4})")),
    Field(TotalAmountDue, Compiled(@"Total Amount Due\s*Rs\.\s*([\d,]+\.\d{2})"))])

  const Icici := Profile("ICICI", "ICICI Bank", [
    Field(CardholderName, Compiled(@"Name\s*:\s*([A-Z\s\.]+)")),
    Field(CardNumber, CardSuffix([Lit("Card Number"), Spaces(false), Lit(":"), Spaces(false), Lit(Masked)])),
    Field(StatementDate, Compiled(@"Statement Date\s*:\s*(\d{2}-\w{3}-\d{4})")),
    Field(PaymentDueDate, Compiled(@"Payment Due Date\s*:\s*(\d{2}-\w{3}-\d{4})")),
    Field(TotalAmountDue, Compiled(@"Total Amount Due\s*:\s*₹\s*([\d,]+\.\d{2})"))])

  const Sbi := Profile("SBI", "SBI Card", [
    Field(CardholderName, Compiled(@"MR\.\s+([A-Z\s]+)")),
    Field(CardNumber, CardSuffix([Lit("CARD NO."), Spaces(false), Lit(":"), Spaces(false), Lit(Masked)])),
    Field(StatementDate, Compiled(@"Statement Date\s*:\s*(\d{2} \w{3} \d{4})")),
    Field(PaymentDueDate, Compiled(@"Payment Due Date\s*:\s*(\d{2} \w{3} \d{4})")),
    Field(TotalAmountDue, Compiled(@"Total Amount Due\s+([\d,]+\.\d{2})"))])

  const Axis := Profile("AXIS", "Axis Bank", [
    Field(CardholderName, Compiled(@"MR\.\s+([A-Z\s]+)")),
    Field(CardNumber, CardSuffix([Lit("Card Number"), Spaces(true), Lit(Masked)])),
    Field(StatementDate, Compiled(@"Statement Date\s+(\d{2}-\d{2}-\d{4})")),
    Field(PaymentDueDate, Compiled(@"Payment due date\s+(\d{2}-\d{2}-\d{4})")),
    Field(TotalAmountDue, Compiled(@"TOTAL AMOUNT DUE\s+Rs\.\s+([\d,]+\.\d{2})"))])

  const Kotak := Profile("KOTAK", "Kotak", [
    Field(CardholderName, Compiled(@"Dear\s+([A-Z\s]+),")),
    Field(CardNumber, CardSuffix([Lit("CREDIT CARD NO."), Spaces(true), Lit(Masked)])),
    Field(StatementDate, Compiled(@"STATEMENT DATE\s+(\d{2}/\d{2}/\d{4})")),
    Field(PaymentDueDate, Compiled(@"PAYMENT DUE DATE\s+(\d{2}/\d{2}/\d{4})")),
    Field(TotalAmountDue, Compiled(@"TOTAL AMOUNT DUE\s+₹([\d,]+\.\d{2})"))])

  /** The field names of a profile, in order. */
  function FieldNames(fields: seq<Field>): (names: seq<string>)
    ensures |names| == |fields| && forall j :: 0 <= j < |fields| ==> names[j] == fields[j].name
  {
    if fields == [] then [] else [fields[0].name] + FieldNames(fields[1..])
  }

  /** What a Python dict literal guarantees of the registry and of each
      profile's patterns: no key twice. Besides, no field is named like the
      issuer column, which it would otherwise overwrite. */
  predicate ValidRegistry(reg: seq<Profile>) {
    (forall i, j :: 0 <= i < j < |reg| ==> reg[i].code != reg[j].code)
    && forall i :: 0 <= i < |reg| ==> ValidFields(reg[i].fields)
  }

  predicate ValidFields(fields: seq<Field>) {
    (forall j, j' :: 0 <= j < j' < |fields| ==> fields[j].name != fields[j'].name)
    && forall j :: 0 <= j < |fields| ==> fields[j].name != IssuerKey
  }

  /** The profile defines the five standard fields, in the standard order. */
  predicate StandardFields(fields: seq<Field>) {
    |fields| == |FieldOrder| && forall j :: 0 <= j < |fields| ==> fields[j].name == FieldOrder[j]
  }

  /** The standard field names are distinct, and none is the issuer column. */
  lemma FieldOrderDistinct()
    ensures forall j, j' :: 0 <= j < j' < |FieldOrder| ==> FieldOrder[j] != FieldOrder[j']
    ensures forall j :: 0 <= j < |FieldOrder| ==> FieldOrder[j] != IssuerKey
  {
    assert |IssuerKey| == 6 && |CardholderName| == 15 && |CardNumber| == 27;
    assert |StatementDate| == 14 && |PaymentDueDate| == 16 && |TotalAmountDue| == 16;
    assert PaymentDueDate[0] != TotalAmountDue[0];
  }

  /** The standard field list has no repeated name and none that clashes
      with the issuer column. */
  lemma StandardFieldsValid(fields: seq<Field>)
    requires StandardFields(fields)
    ensures ValidFields(fields)
    ensures forall j :: 0 <= j < |fields| && j != 1 ==> fields[j].name != CardNumber
    ensures FieldNames(fields) == FieldOrder
  {
    FieldOrderDistinct();
  }

  /** A profile as the registry writes it: a non-empty display identifier
      with no outer whitespace, the standard fields in the standard order,
      and a concrete card-number pattern. */
  predicate WellShaped(p: Profile) {
    p.identifier != "" && NoOuterSpace(p.identifier)
    && StandardFields(p.fields)
    && p.fields[1].pattern.CardSuffix? && Anchored(p.fields[1].pattern.lead)
  }

  lemma HdfcShape() ensures WellShaped(Hdfc) { assert Hdfc.fields[1].pattern.lead == [Lit(Masked)]; }
  lemma IciciShape() ensures WellShaped(Icici) { }
  lemma SbiShape() ensures WellShaped(Sbi) { }
  lemma AxisShape() ensures WellShaped(Axis) { }
  lemma KotakShape() ensures WellShaped(Kotak) { }

  /** Every issuer's profile is well shaped. */
  lemma ProfilesShape()
    ensures forall i :: 0 <= i < |BankPatterns| ==> WellShaped(BankPatterns[i])
  {
    HdfcShape(); IciciShape(); SbiShape(); AxisShape(); KotakShape();
  }

  /** The registry is well formed, every identifier is non-empty and
      unpadded, every issuer defines the same five fields in the same order,
      the card-number patterns are the concrete ones, and no display
      identifier is the same string as its issuer's code. */
  lemma BankPatternsShape()
    ensures |BankPatterns| == 5
    ensures ValidRegistry(BankPatterns)
    ensures forall i :: 0 <= i < |BankPatterns| ==> WellShaped(BankPatterns[i])
    ensures forall i, j :: 0 <= i < |BankPatterns| && 0 <= j < |BankPatterns[i].fields|
                           && BankPatterns[i].fields[j].name == CardNumber ==>
              BankPatterns[i].fields[j].pattern.CardSuffix? && Anchored(BankPatterns[i].fields[j].pattern.lead)
    ensures forall i :: 0 <= i < |BankPatterns| ==> BankPatterns[i].identifier != BankPatterns[i].code
  {
    ProfilesShape();
    assert forall i, j :: 0 <= i < j < |BankPatterns| ==> BankPatterns[i].code != BankPatterns[j].code;
    forall i | 0 <= i < |BankPatterns| ensures ValidFields(BankPatterns[i].fields) {
      StandardFieldsValid(BankPatterns[i].fields);
    }
    forall i, j | 0 <= i < |BankPatterns| && 0 <= j < |BankPatterns[i].fields|
                  && BankPatterns[i].fields[j].name == CardNumber
      ensures BankPatterns[i].fields[j].pattern.CardSuffix? && Anchored(BankPatterns[i].fields[j].pattern.lead)
    {
      StandardFieldsValid(BankPatterns[i].fields);
    }
  }
}
