/** `parse_statement`: join the page texts of a statement, detect its issuer
    from the registry and extract every field of that issuer, failing as a
    whole as soon as one field is not found. */
module UniversalParser {
  import opened Wrappers
  import opened PyText
  import opened PyDict
  import opened Patterns
  import opened Registry

  /** Why a statement yields no record. */
  datatype Failure =
    | UnknownIssuer                                 // no registered identifier in the text
    | MissingField(field: string, issuer: string)   // the field whose pattern found nothing, and the issuer's code

  // ---------------------------------------------------------------------
  // Page concatenation

  /** What a page adds to the text: `page.extract_text() or ""`. */
  function PageText(page: Option<string>): string {
    page.GetOr("")
  }

  /** The statement's text: the page texts one after another, in page order. */
  function JoinPages(pages: seq<Option<string>>): string
    decreases |pages|
  {
    if pages == [] then "" else JoinPages(pages[..|pages| - 1]) + PageText(pages[|pages| - 1])
  }

  /** Joining distributes over splitting the page list. */
  lemma {:induction false} JoinPagesAppend(a: seq<Option<string>>, b: seq<Option<string>>)
    ensures JoinPages(a + b) == JoinPages(a) + JoinPages(b)
    decreases |b|
  {
    if b != [] {
      var last := |b| - 1;
      assert (a + b)[..|a + b| - 1] == a + b[..last];
      JoinPagesAppend(a, b[..last]);
    } else {
      assert a + b == a;
    }
  }

  /** Page `i` contributes its text right after the pages before it. */
  lemma JoinPagesAt(pages: seq<Option<string>>, i: nat)
    requires i < |pages|
    ensures JoinPages(pages) == JoinPages(pages[..i]) + PageText(pages[i]) + JoinPages(pages[i + 1..])
  {
    var left, right := pages[..i + 1], pages[i + 1..];
    JoinPagesAppend(left, right);
    assert left[..i] == pages[..i];
    assert JoinPages(left) == JoinPages(pages[..i]) + PageText(pages[i]);
    assert pages == left + right;
  }

  /** A page without text changes nothing: dropping it gives the same text. */
  lemma PageWithoutTextAddsNothing(pages: seq<Option<string>>, i: nat)
    requires i < |pages| && pages[i] == None
    ensures JoinPages(pages) == JoinPages(pages[..i] + pages[i + 1..])
  {
    JoinPagesAt(pages, i);
    JoinPagesAppend(pages[..i], pages[i + 1..]);
  }

  /** A statement none of whose pages yields text has the empty text. */
  lemma {:induction false} BlankPagesJoinEmpty(pages: seq<Option<string>>)
    requires forall i :: 0 <= i < |pages| ==> PageText(pages[i]) == ""
    ensures JoinPages(pages) == ""
    decreases |pages|
  {
    if pages != [] {
      BlankPagesJoinEmpty(pages[..|pages| - 1]);
    }
  }

  // ---------------------------------------------------------------------
  // Detection

  /** The first profile, from position `i` of the registry on, whose
      identifier occurs in the text. */
  function DetectFrom(reg: seq<Profile>, text: string, i: nat): (r: Option<nat>)
    requires i <= |reg|
    ensures r.Some? ==> i <= r.value < |reg| && Contains(text, reg[r.value].identifier)
    ensures r.Some? ==> forall j :: i <= j < r.value ==> !Contains(text, reg[j].identifier)
    ensures r.None? <==> forall j :: i <= j < |reg| ==> !Contains(text, reg[j].identifier)
    decreases |reg| - i
  {
    if i == |reg| then None
    else if Contains(text, reg[i].identifier) then Some(i)
    else DetectFrom(reg, text, i + 1)
  }

  /** The issuer of a text: the first registry entry, in registry order,
      whose identifier occurs in it; none if no identifier occurs. */
  function Detect(reg: seq<Profile>, text: string): (r: Option<nat>)
    ensures r.Some? ==> r.value < |reg| && Contains(text, reg[r.value].identifier)
    ensures r.Some? ==> forall j :: 0 <= j < r.value ==> !Contains(text, reg[j].identifier)
    ensures r.None? <==> forall j :: 0 <= j < |reg| ==> !Contains(text, reg[j].identifier)
  {
    DetectFrom(reg, text, 0)
  }

  // ---------------------------------------------------------------------
  // Extraction

  /** The record once fields `i..` of a profile are extracted into `acc`:
      each field's pattern is searched for in the whole text and its group,
      stripped, is stored under the field's name; the first field whose
      pattern finds nothing ends the extraction with no record. */
  function ExtractFrom(fields: seq<Field>, code: string, text: string, engine: Engine,
                       i: nat, acc: Dict): (r: Result<Dict, Failure>)
    requires i <= |fields|
    ensures r.Failure? ==> exists j :: i <= j < |fields| && Search(fields[j].pattern, text, engine).None?
                                       && r.error == MissingField(fields[j].name, code)
    decreases |fields| - i
  {
    if i == |fields| then Success(acc)
    else
      match Search(fields[i].pattern, text, engine)
      case None => Failure(MissingField(fields[i].name, code))
      case Some(g) => ExtractFrom(fields, code, text, engine, i + 1, Put(acc, fields[i].name, Strip(g)))
  }

  /** What `parse_statement` computes from the statement's text. */
  function ParseText(reg: seq<Profile>, text: string, engine: Engine): Result<Dict, Failure> {
    match Detect(reg, text)
    case None => Failure(UnknownIssuer)
    case Some(k) =>
      ExtractFrom(reg[k].fields, reg[k].code, text, engine, 0, [(IssuerKey, reg[k].identifier)])
  }

  /** `parse_statement` over the pages of a statement, with the registry. */
  method ParseStatement(pages: seq<Option<string>>, engine: Engine) returns (r: Result<Dict, Failure>)
    ensures r == ParseText(BankPatterns, JoinPages(pages), engine)
  {
    var fullText := "";
    for p := 0 to |pages|
      invariant fullText == JoinPages(pages[..p])
    {
      assert pages[..p + 1][..p] == pages[..p];
      fullText := fullText + PageText(pages[p]);
    }
    assert pages[..|pages|] == pages;

    // Step 1: identify the bank
    var detected: Option<nat> := None;
    for k := 0 to |BankPatterns|
      invariant detected == None
      invariant forall j :: 0 <= j < k ==> !Contains(fullText, BankPatterns[j].identifier)
    {
      if Contains(fullText, BankPatterns[k].identifier) {
        detected := Some(k);
        break;
      }
    }
    assert detected == Detect(BankPatterns, fullText);
    if detected.None? {
      return Failure(UnknownIssuer);
    }

    // Step 2: extract every field of that bank, stopping at the first one missing
    var profile := BankPatterns[detected.value];
    var data: Dict := [(IssuerKey, profile.identifier)];
    for f := 0 to |profile.fields|
      invariant ExtractFrom(profile.fields, profile.code, fullText, engine, f, data)
                == ParseText(BankPatterns, fullText, engine)
    {
      var found := Search(profile.fields[f].pattern, fullText, engine);
      if found.None? {
        return Failure(MissingField(profile.fields[f].name, profile.code));
      }
      data := Put(data, profile.fields[f].name, Strip(found.value));
    }
    return Success(data);
  }
}
