/** The field patterns of the registry and how a pattern is searched for in
    a document's text.

    Most field patterns are handed to Python's `re` engine, which is not part
    of this model: a search with such a pattern is the `Engine` parameter.
    The card-number patterns all have one simple shape, a lead made of
    literal text and whitespace runs followed by the group `(\d{4})`, and
    for that shape the model carries its own matcher. */
module Patterns {
  import opened Wrappers
  import opened PyText

  /** One element of a card-number pattern's lead. */
  datatype Piece =
    | Lit(chars: string)           // literal text, matched exactly
    | Spaces(atLeastOne: bool)     // `\s+` when atLeastOne, otherwise `\s*`

  datatype Pattern =
    /** A regular expression, by its source text, searched by the `Engine`. */
    | Compiled(source: string)
    /** The regular expression `lead (\d{4})`. */
    | CardSuffix(lead: seq<Piece>)

  /** `re.compile(source).search(text)`, reduced to what the parser uses:
      `None` when nothing matches, otherwise capture group 1 of the
      leftmost match. */
  type Engine = (string, string) -> Option<string>

  // ---------------------------------------------------------------------
  // The card-number matcher

  /** Where a match of `lead` that starts at `i` ends, with every whitespace
      run taking all the whitespace it can. */
  function MatchLead(lead: seq<Piece>, text: string, i: nat): (r: Option<nat>)
    requires i <= |text|
    ensures r.Some? ==> i <= r.value <= |text|
    decreases lead
  {
    if lead == [] then Some(i)
    else
      match lead[0]
      case Lit(cs) =>
        if OccursAt(text, cs, i) then MatchLead(lead[1..], text, i + |cs|) else None
      case Spaces(plus) =>
        var j := SkipSpace(text, i);
        if plus && j == i then None else MatchLead(lead[1..], text, j)
  }

  /** The regular-expression meaning of `lead`: some choice of how much
      whitespace each run takes lets it match exactly `text[i..k]`. This is
      what a backtracking engine looks for. */
  ghost predicate LeadMatches(lead: seq<Piece>, text: string, i: nat, k: nat)
    requires i <= k <= |text|
    decreases lead
  {
    if lead == [] then i == k
    else
      match lead[0]
      case Lit(cs) =>
        OccursAt(text, cs, i) && i + |cs| <= k && LeadMatches(lead[1..], text, i + |cs|, k)
      case Spaces(plus) =>
        exists m: nat :: i <= m <= k && (plus ==> i < m) && AllSpaceIn(text, i, m)
                         && LeadMatches(lead[1..], text, m, k)
  }

  /** Every whitespace run of the lead is followed by literal text that
      starts with a character that is not whitespace, so no run can stop
      short of the whole run of whitespace. */
  predicate Anchored(lead: seq<Piece>) {
    forall j :: 0 <= j < |lead| && lead[j].Spaces? ==>
      j + 1 < |lead| && lead[j + 1].Lit? && lead[j + 1].chars != []
      && !IsSpace(lead[j + 1].chars[0])
  }

  /** The greedy matcher finds a match of the lead exactly where the
      backtracking meaning has one, provided the lead is anchored. */
  lemma {:induction false} GreedyIsExact(lead: seq<Piece>, text: string, i: nat, k: nat)
    requires Anchored(lead)
    requires i <= k <= |text|
    ensures MatchLead(lead, text, i) == Some(k) <==> LeadMatches(lead, text, i, k)
    decreases lead
  {
    if lead != [] {
      assert Anchored(lead[1..]) by {
        forall j | 0 <= j < |lead[1..]| && lead[1..][j].Spaces?
          ensures j + 1 < |lead[1..]| && lead[1..][j + 1].Lit?
        {
          assert lead[j + 1].Spaces?;
        }
      }
      match lead[0]
      case Lit(cs) =>
        if OccursAt(text, cs, i) && i + |cs| <= k {
          GreedyIsExact(lead[1..], text, i + |cs|, k);
        }
      case Spaces(plus) =>
        var j := SkipSpace(text, i);
        if LeadMatches(lead, text, i, k) {
          var m: nat :| i <= m <= k && (plus ==> i < m) && AllSpaceIn(text, i, m)
                        && LeadMatches(lead[1..], text, m, k);
          RunIsWhole(lead[1..], text, i, m, k);
        }
        if j <= k {
          GreedyIsExact(lead[1..], text, j, k);
        }
    }
  }

  /** After a whitespace run, an anchored rest can only match where the
      whole run of whitespace has been taken. */
  lemma RunIsWhole(rest: seq<Piece>, text: string, i: nat, m: nat, k: nat)
    requires rest != [] && rest[0].Lit? && rest[0].chars != [] && !IsSpace(rest[0].chars[0])
    requires i <= m <= k <= |text|
    requires AllSpaceIn(text, i, m)
    requires LeadMatches(rest, text, m, k)
    ensures SkipSpace(text, i) == m
  {
    var cs := rest[0].chars;
    assert text[m] == text[m..m + |cs|][0];
  }

  /** `re.search` for `lead (\d{4})` tried at position `i` alone: the four
      digits that follow the lead's match there, if there are four. */
  function MatchAt(lead: seq<Piece>, text: string, i: nat): (r: Option<string>)
    requires i <= |text|
    ensures r.Some? ==> |r.value| == 4 && AllDigits(r.value)
  {
    match MatchLead(lead, text, i)
    case None => None
    case Some(k) =>
      if k + 4 <= |text| && AllDigits(text[k..k + 4]) then Some(text[k..k + 4]) else None
  }

  /** For an anchored lead, `MatchAt` finds exactly the matches of the
      regular expression `lead (\d{4})` that start at `i`. */
  lemma MatchAtIsExact(lead: seq<Piece>, text: string, i: nat, g: string)
    requires Anchored(lead) && i <= |text|
    ensures MatchAt(lead, text, i) == Some(g) <==>
            exists k: nat :: i <= k && k + 4 <= |text| && LeadMatches(lead, text, i, k)
                             && AllDigits(text[k..k + 4]) && g == text[k..k + 4]
  {
    if MatchAt(lead, text, i) == Some(g) {
      var k := MatchLead(lead, text, i).value;
      GreedyIsExact(lead, text, i, k);
    }
    forall k: nat | i <= k && k + 4 <= |text| && LeadMatches(lead, text, i, k)
      ensures MatchLead(lead, text, i) == Some(k)
    {
      GreedyIsExact(lead, text, i, k);
    }
  }

  /** `re.search` for `lead (\d{4})` from position `i` on: the first match,
      trying the positions left to right (`SearchIsLeftmost`). */
  function SearchFrom(lead: seq<Piece>, text: string, i: nat): (r: Option<string>)
    requires i <= |text|
    decreases |text| - i
  {
    var here := MatchAt(lead, text, i);
    if here.Some? then here
    else if i == |text| then None
    else SearchFrom(lead, text, i + 1)
  }

  /** The search finds nothing exactly when no position has a match, and
      otherwise the match at the leftmost position that has one. */
  lemma {:induction false} SearchIsLeftmost(lead: seq<Piece>, text: string, i: nat)
    requires i <= |text|
    ensures SearchFrom(lead, text, i).None? <==> forall j :: i <= j <= |text| ==> MatchAt(lead, text, j).None?
    ensures SearchFrom(lead, text, i).Some? ==>
              exists j :: i <= j <= |text| && MatchAt(lead, text, j) == SearchFrom(lead, text, i)
                          && forall j' :: i <= j' < j ==> MatchAt(lead, text, j').None?
    decreases |text| - i
  {
    if MatchAt(lead, text, i).None? && i < |text| {
      SearchIsLeftmost(lead, text, i + 1);
      if SearchFrom(lead, text, i).Some? {
        var j :| i + 1 <= j <= |text| && MatchAt(lead, text, j) == SearchFrom(lead, text, i + 1)
                 && forall j' :: i + 1 <= j' < j ==> MatchAt(lead, text, j').None?;
        assert forall j' :: i <= j' < j ==> MatchAt(lead, text, j').None?;
      }
    }
  }

  /** Search the whole text with a pattern: group 1 of the leftmost match. */
  function Search(p: Pattern, text: string, engine: Engine): Option<string> {
    match p
    case Compiled(src) => engine(src, text)
    case CardSuffix(lead) => SearchFrom(lead, text, 0)
  }

  /** Whatever the engine does, a card-number pattern that finds something
      finds exactly four decimal digits. */
  lemma CardSearchIsFourDigits(lead: seq<Piece>, text: string, engine: Engine)
    requires Search(CardSuffix(lead), text, engine).Some?
    ensures |Search(CardSuffix(lead), text, engine).value| == 4
    ensures AllDigits(Search(CardSuffix(lead), text, engine).value)
  {
    SearchIsLeftmost(lead, text, 0);
  }
}
