/** What `parse_statement` promises: first-match detection, all-or-nothing
    extraction, the shape of a successful record and its values. */
module ParserProperties {
  import opened Wrappers
  import opened PyText
  import opened PyDict
  import opened Patterns
  import opened Registry
  import opened UniversalParser

  // ---------------------------------------------------------------------
  // Extraction, field by field

  /** One step of the extraction, when field `i`'s pattern finds its group. */
  lemma ExtractStep(fields: seq<Field>, code: string, text: string, engine: Engine, i: nat, acc: Dict)
    requires i < |fields| && Search(fields[i].pattern, text, engine).Some?
    ensures ExtractFrom(fields, code, text, engine, i, acc)
            == ExtractFrom(fields, code, text, engine, i + 1,
                           Put(acc, fields[i].name, Strip(Search(fields[i].pattern, text, engine).value)))
  {
  }

  /** The first field whose pattern finds nothing ends the extraction with
      a failure naming that field. */
  lemma {:induction false} ExtractStopsAt(fields: seq<Field>, code: string, text: string, engine: Engine,
                                          i: nat, acc: Dict, j: nat)
    requires i <= j < |fields|
    requires Search(fields[j].pattern, text, engine).None?
    requires forall m :: i <= m < j ==> Search(fields[m].pattern, text, engine).Some?
    ensures ExtractFrom(fields, code, text, engine, i, acc) == Failure(MissingField(fields[j].name, code))
    decreases j - i
  {
    if i < j {
      var g := Search(fields[i].pattern, text, engine).value;
      ExtractStep(fields, code, text, engine, i, acc);
      ExtractStopsAt(fields, code, text, engine, i + 1, Put(acc, fields[i].name, Strip(g)), j);
    }
  }

  /** The extraction succeeds only if every remaining field's pattern finds something. */
  lemma {:induction false} ExtractSuccessFoundAll(fields: seq<Field>, code: string, text: string,
                                                  engine: Engine, i: nat, acc: Dict)
    requires i <= |fields|
    requires ExtractFrom(fields, code, text, engine, i, acc).Success?
    ensures forall m :: i <= m < |fields| ==> Search(fields[m].pattern, text, engine).Some?
    decreases |fields| - i
  {
    if i < |fields| {
      var found := Search(fields[i].pattern, text, engine);
      assert found.Some?;
      ExtractSuccessFoundAll(fields, code, text, engine, i + 1, Put(acc, fields[i].name, Strip(found.value)));
    }
  }

  /** When every remaining field's pattern finds something, the extraction succeeds. */
  lemma {:induction false} ExtractSucceeds(fields: seq<Field>, code: string, text: string, engine: Engine,
                                           i: nat, acc: Dict)
    requires i <= |fields|
    requires forall m :: i <= m < |fields| ==> Search(fields[m].pattern, text, engine).Some?
    ensures ExtractFrom(fields, code, text, engine, i, acc).Success?
    decreases |fields| - i
  {
    if i < |fields| {
      var value := Strip(Search(fields[i].pattern, text, engine).value);
      ExtractStep(fields, code, text, engine, i, acc);
      ExtractSucceeds(fields, code, text, engine, i + 1, Put(acc, fields[i].name, value));
    }
  }

  /** A successful extraction adds one key per field, in field order, after
      the keys already there. */
  lemma {:induction false} ExtractKeys(fields: seq<Field>, code: string, text: string, engine: Engine,
                                       i: nat, acc: Dict)
    requires i <= |fields| && ValidFields(fields)
    requires forall m :: i <= m < |fields| ==> fields[m].name !in Keys(acc)
    requires ExtractFrom(fields, code, text, engine, i, acc).Success?
    ensures Keys(ExtractFrom(fields, code, text, engine, i, acc).value) == Keys(acc) + FieldNames(fields[i..])
    decreases |fields| - i
  {
    if i < |fields| {
      var name := fields[i].name;
      var value := Strip(Search(fields[i].pattern, text, engine).value);
      var acc' := Put(acc, name, value);
      PutKeys(acc, name, value);
      ExtractKeys(fields, code, text, engine, i + 1, acc');
      assert fields[i..][1..] == fields[i + 1..];
      assert FieldNames(fields[i..]) == [name] + FieldNames(fields[i + 1..]);
      Assoc(Keys(acc), [name], FieldNames(fields[i + 1..]));
    } else {
      assert Keys(acc) + FieldNames(fields[i..]) == Keys(acc);
    }
  }

  /** A successful extraction leaves alone every key that is not the name
      of one of the remaining fields. */
  lemma {:induction false} ExtractKeepsOthers(fields: seq<Field>, code: string, text: string, engine: Engine,
                                              i: nat, acc: Dict, key: string)
    requires i <= |fields|
    requires forall m :: i <= m < |fields| ==> fields[m].name != key
    requires ExtractFrom(fields, code, text, engine, i, acc).Success?
    ensures Get(ExtractFrom(fields, code, text, engine, i, acc).value, key) == Get(acc, key)
    decreases |fields| - i
  {
    if i < |fields| {
      var name := fields[i].name;
      var value := Strip(Search(fields[i].pattern, text, engine).value);
      PutKeepsOthers(acc, name, value, key);
      ExtractKeepsOthers(fields, code, text, engine, i + 1, Put(acc, name, value), key);
    }
  }

  /** The pairs that fields `i..` add when every pattern finds its group:
      each field's name with its stripped group, in field order. */
  function Captures(fields: seq<Field>, text: string, engine: Engine, i: nat): Dict
    requires i <= |fields|
    requires forall m :: i <= m < |fields| ==> Search(fields[m].pattern, text, engine).Some?
    decreases |fields| - i
  {
    if i == |fields| then []
    else [(fields[i].name, Strip(Search(fields[i].pattern, text, engine).value))]
         + Captures(fields, text, engine, i + 1)
  }

  /** With field names new to the dict, a complete extraction appends the
      captured pairs to it, in field order. */
  lemma {:induction false} ExtractAppends(fields: seq<Field>, code: string, text: string, engine: Engine,
                                          i: nat, acc: Dict)
    requires i <= |fields| && ValidFields(fields)
    requires forall m :: i <= m < |fields| ==> fields[m].name !in Keys(acc)
    requires forall m :: i <= m < |fields| ==> Search(fields[m].pattern, text, engine).Some?
    ensures ExtractFrom(fields, code, text, engine, i, acc) == Success(acc + Captures(fields, text, engine, i))
    decreases |fields| - i
  {
    if i < |fields| {
      var name := fields[i].name;
      var value := Strip(Search(fields[i].pattern, text, engine).value);
      var rest := Captures(fields, text, engine, i + 1);
      ExtractStep(fields, code, text, engine, i, acc);
      PutNew(acc, name, value);
      StillFresh(fields, i, acc, value);
      ExtractAppends(fields, code, text, engine, i + 1, acc + [(name, value)]);
      assert Captures(fields, text, engine, i) == [(name, value)] + rest;
      Assoc(acc, [(name, value)], rest);
    } else {
      assert acc + [] == acc;
    }
  }

  /** Concatenation regrouped, stated apart so that the extraction lemmas
      above get the fact without reasoning about sequences in their own,
      larger, proof context. */
  lemma Assoc<T>(a: seq<T>, b: seq<T>, c: seq<T>)
    ensures a + b + c == a + (b + c)
  {
  }

  /** Appending field `i` keeps the later fields' names new to the dict. */
  lemma StillFresh(fields: seq<Field>, i: nat, acc: Dict, value: string)
    requires i < |fields| && ValidFields(fields)
    requires forall m :: i <= m < |fields| ==> fields[m].name !in Keys(acc)
    ensures forall m :: i + 1 <= m < |fields| ==> fields[m].name !in Keys(acc + [(fields[i].name, value)])
  {
    PutNew(acc, fields[i].name, value);
    PutKeys(acc, fields[i].name, value);
  }

  /** After a successful extraction, each field's name holds the stripped
      group its pattern captured. */
  lemma {:induction false} ExtractValues(fields: seq<Field>, code: string, text: string, engine: Engine,
                                         i: nat, acc: Dict, m: nat)
    requires i <= m < |fields| && ValidFields(fields)
    requires ExtractFrom(fields, code, text, engine, i, acc).Success?
    ensures Search(fields[m].pattern, text, engine).Some?
    ensures Get(ExtractFrom(fields, code, text, engine, i, acc).value, fields[m].name)
            == Some(Strip(Search(fields[m].pattern, text, engine).value))
    decreases |fields| - i
  {
    var name := fields[i].name;
    var value := Strip(Search(fields[i].pattern, text, engine).value);
    if m == i {
      PutGet(acc, name, value);
      ExtractKeepsOthers(fields, code, text, engine, i + 1, Put(acc, name, value), name);
    } else {
      ExtractValues(fields, code, text, engine, i + 1, Put(acc, name, value), m);
    }
  }

  /** Two engines that agree on the fields up to the first one that finds
      nothing give the same result: the fields after it are not examined. */
  lemma {:induction false} ExtractIgnoresLaterFields(fields: seq<Field>, code: string, text: string,
                                                     e1: Engine, e2: Engine, i: nat, acc: Dict, j: nat)
    requires i <= j < |fields|
    requires Search(fields[j].pattern, text, e1).None?
    requires forall m :: i <= m <= j ==> Search(fields[m].pattern, text, e1) == Search(fields[m].pattern, text, e2)
    ensures ExtractFrom(fields, code, text, e1, i, acc) == ExtractFrom(fields, code, text, e2, i, acc)
    decreases j - i
  {
    if i < j && Search(fields[i].pattern, text, e1).Some? {
      var g := Search(fields[i].pattern, text, e1).value;
      ExtractIgnoresLaterFields(fields, code, text, e1, e2, i + 1, Put(acc, fields[i].name, Strip(g)), j);
    }
  }

  // ---------------------------------------------------------------------
  // The whole parse

  /** The parse reports an unknown issuer exactly when no registry
      identifier occurs in the text. */
  lemma UnknownIssuerIff(reg: seq<Profile>, text: string, engine: Engine)
    ensures ParseText(reg, text, engine) == Failure(UnknownIssuer)
            <==> forall k :: 0 <= k < |reg| ==> !Contains(text, reg[k].identifier)
  {
  }

  /** A statement whose pages yield no text is of no known issuer, given
      non-empty identifiers (as in the registry, `BankPatternsShape`). */
  lemma BlankStatementIsUnknown(reg: seq<Profile>, pages: seq<Option<string>>, engine: Engine)
    requires forall k :: 0 <= k < |reg| ==> reg[k].identifier != ""
    requires forall i :: 0 <= i < |pages| ==> PageText(pages[i]) == ""
    ensures ParseText(reg, JoinPages(pages), engine) == Failure(UnknownIssuer)
  {
    BlankPagesJoinEmpty(pages);
    forall k | 0 <= k < |reg| ensures !Contains("", reg[k].identifier) {
      EmptyTextContainsNothing(reg[k].identifier);
    }
    UnknownIssuerIff(reg, "", engine);
  }

  /** Fail-fast: for the detected issuer, the first field whose pattern
      finds nothing makes the whole parse fail, naming that field and the
      issuer's code; no record is produced. */
  lemma ParseFailsFast(reg: seq<Profile>, text: string, engine: Engine, k: nat, j: nat)
    requires Detect(reg, text) == Some(k)
    requires j < |reg[k].fields| && Search(reg[k].fields[j].pattern, text, engine).None?
    requires forall m :: 0 <= m < j ==> Search(reg[k].fields[m].pattern, text, engine).Some?
    ensures ParseText(reg, text, engine) == Failure(MissingField(reg[k].fields[j].name, reg[k].code))
  {
    ExtractStopsAt(reg[k].fields, reg[k].code, text, engine, 0, [(IssuerKey, reg[k].identifier)], j);
  }

  /** Fields after the first missing one are not examined: an engine that
      answers differently for them gives the same result. */
  lemma ParseIgnoresLaterFields(reg: seq<Profile>, text: string, e1: Engine, e2: Engine, k: nat, j: nat)
    requires Detect(reg, text) == Some(k)
    requires j < |reg[k].fields| && Search(reg[k].fields[j].pattern, text, e1).None?
    requires forall m :: 0 <= m <= j ==>
               Search(reg[k].fields[m].pattern, text, e1) == Search(reg[k].fields[m].pattern, text, e2)
    ensures ParseText(reg, text, e1) == ParseText(reg, text, e2)
  {
    ExtractIgnoresLaterFields(reg[k].fields, reg[k].code, text, e1, e2, 0, [(IssuerKey, reg[k].identifier)], j);
  }

  /** The parse yields a record exactly when an issuer is detected and
      every one of its field patterns finds something. */
  lemma ParseSuccessIff(reg: seq<Profile>, text: string, engine: Engine)
    ensures ParseText(reg, text, engine).Success? <==>
            Detect(reg, text).Some? &&
            forall m :: 0 <= m < |reg[Detect(reg, text).value].fields| ==>
              Search(reg[Detect(reg, text).value].fields[m].pattern, text, engine).Some?
  {
    match Detect(reg, text)
    case None =>
    case Some(k) =>
      var acc := [(IssuerKey, reg[k].identifier)];
      if ParseText(reg, text, engine).Success? {
        ExtractSuccessFoundAll(reg[k].fields, reg[k].code, text, engine, 0, acc);
      }
      if forall m :: 0 <= m < |reg[k].fields| ==> Search(reg[k].fields[m].pattern, text, engine).Some? {
        ExtractSucceeds(reg[k].fields, reg[k].code, text, engine, 0, acc);
      }
  }

  /** A successful record: its keys are `Issuer` followed by the detected
      issuer's field names in order; `Issuer` holds the issuer's display
      identifier (not its registry code); each field holds the stripped
      group its pattern captured in the whole text. */
  lemma ParseRecord(reg: seq<Profile>, text: string, engine: Engine)
    requires ValidRegistry(reg)
    requires ParseText(reg, text, engine).Success?
    ensures Detect(reg, text).Some?
    ensures var k := Detect(reg, text).value; var d := ParseText(reg, text, engine).value;
            Keys(d) == [IssuerKey] + FieldNames(reg[k].fields)
            && Get(d, IssuerKey) == Some(reg[k].identifier)
            && forall m :: 0 <= m < |reg[k].fields| ==>
                 Search(reg[k].fields[m].pattern, text, engine).Some?
                 && Get(d, reg[k].fields[m].name) == Some(Strip(Search(reg[k].fields[m].pattern, text, engine).value))
  {
    var k := Detect(reg, text).value;
    ExtractRecord(reg[k].fields, reg[k].code, text, engine, reg[k].identifier);
  }

  /** The record one profile's extraction builds from the issuer column. */
  lemma ExtractRecord(fields: seq<Field>, code: string, text: string, engine: Engine, id: string)
    requires ValidFields(fields)
    requires ExtractFrom(fields, code, text, engine, 0, [(IssuerKey, id)]).Success?
    ensures var d := ExtractFrom(fields, code, text, engine, 0, [(IssuerKey, id)]).value;
            Keys(d) == [IssuerKey] + FieldNames(fields)
            && Get(d, IssuerKey) == Some(id)
            && forall m :: 0 <= m < |fields| ==>
                 Search(fields[m].pattern, text, engine).Some?
                 && Get(d, fields[m].name) == Some(Strip(Search(fields[m].pattern, text, engine).value))
  {
    var acc := [(IssuerKey, id)];
    ExtractKeys(fields, code, text, engine, 0, acc);
    assert fields[0..] == fields;
    ExtractKeepsOthers(fields, code, text, engine, 0, acc, IssuerKey);
    forall m | 0 <= m < |fields|
      ensures Search(fields[m].pattern, text, engine).Some?
      ensures Get(ExtractFrom(fields, code, text, engine, 0, acc).value, fields[m].name)
              == Some(Strip(Search(fields[m].pattern, text, engine).value))
    {
      ExtractValues(fields, code, text, engine, 0, acc, m);
    }
  }

  /** Every value a successful record holds has no leading or trailing
      whitespace, given identifiers written without any (as in the
      registry, `BankPatternsShape`). */
  lemma ParsedValuesAreStripped(reg: seq<Profile>, text: string, engine: Engine, key: string)
    requires ValidRegistry(reg)
    requires forall i :: 0 <= i < |reg| ==> NoOuterSpace(reg[i].identifier)
    requires ParseText(reg, text, engine).Success?
    requires key in Keys(ParseText(reg, text, engine).value)
    ensures Get(ParseText(reg, text, engine).value, key).Some?
    ensures NoOuterSpace(Get(ParseText(reg, text, engine).value, key).value)
  {
    ParseRecord(reg, text, engine);
    var k := Detect(reg, text).value;
    if key != IssuerKey {
      var names := FieldNames(reg[k].fields);
      assert key in names;
      var m :| 0 <= m < |names| && names[m] == key;
    }
  }

  /** For the registry itself: every value of a successful record has no
      leading or trailing whitespace, the issuer column included. */
  lemma RegistryValuesAreStripped(text: string, engine: Engine, key: string)
    requires ParseText(BankPatterns, text, engine).Success?
    requires key in Keys(ParseText(BankPatterns, text, engine).value)
    ensures Get(ParseText(BankPatterns, text, engine).value, key).Some?
    ensures NoOuterSpace(Get(ParseText(BankPatterns, text, engine).value, key).value)
  {
    BankPatternsShape();
    ParsedValuesAreStripped(BankPatterns, text, engine, key);
  }

  /** A successful record from the registry has the six columns of the
      output table, in the table's order. */
  lemma RecordColumns(text: string, engine: Engine)
    requires ParseText(BankPatterns, text, engine).Success?
    ensures Keys(ParseText(BankPatterns, text, engine).value) == [IssuerKey] + FieldOrder
  {
    BankPatternsShape();
    ParseRecord(BankPatterns, text, engine);
    StandardFieldsValid(BankPatterns[Detect(BankPatterns, text).value].fields);
  }

  /** Whatever the engine does, a card number in a successful record is
      exactly four decimal digits, for every issuer of a registry shaped like
      the real one. */
  lemma CardNumberIsFourDigits(reg: seq<Profile>, text: string, engine: Engine)
    requires ValidRegistry(reg) && forall i :: 0 <= i < |reg| ==> WellShaped(reg[i])
    requires ParseText(reg, text, engine).Success?
    ensures Get(ParseText(reg, text, engine).value, CardNumber).Some?
    ensures var v := Get(ParseText(reg, text, engine).value, CardNumber).value;
            |v| == 4 && AllDigits(v)
  {
    ParseRecord(reg, text, engine);
    var k := Detect(reg, text).value;
    var f := reg[k].fields[1];
    StandardFieldsValid(reg[k].fields);
    assert f.name == CardNumber;
    CardSearchIsFourDigits(f.pattern.lead, text, engine);
    var g := Search(f.pattern, text, engine).value;
    DigitsHaveNoOuterSpace(g);
    StripKeeps(g);
  }

  /** For the registry itself: whichever issuer is detected, the card number
      of a successful record is four decimal digits. */
  lemma RegistryCardNumberIsFourDigits(text: string, engine: Engine)
    requires ParseText(BankPatterns, text, engine).Success?
    ensures Get(ParseText(BankPatterns, text, engine).value, CardNumber).Some?
    ensures var v := Get(ParseText(BankPatterns, text, engine).value, CardNumber).value;
            |v| == 4 && AllDigits(v)
  {
    BankPatternsShape();
    CardNumberIsFourDigits(BankPatterns, text, engine);
  }
}
