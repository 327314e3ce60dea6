/** _preference and _shared_template in app/src/job_settings.py: of the first row's candidates, the most preferred one
    every row fits.

    Only the first row is searched: a template every row fits is among its candidates, unless its search was cut short
    or the template uses a tag that has no value there. More tags are preferred, then more different ones, then the name
    later in order, so that the choice does not depend on the order the search found them in. */
module TemplateChoice {
  import opened Text
  import opened Templates
  import opened TemplateSearch

  /** A row's value for a name, and the fields it may be filled from. */
  datatype Filled = Filled(value: string, fields: seq<Field>)

  // ---- the order candidates are tried in ----------------------------------------------------------------------------

  function Count(s: string, text: string): nat {
    if s == "" || text == "" then 0
    else if text <= s then 1 + Count(s[|text|..], text)
    else Count(s[1..], text)
  }

  /** How often the first n tags stand in a template. */
  function Uses(template: string, fields: seq<Field>, n: nat): nat
    requires n <= |fields|
  {
    if n == 0 then 0 else Uses(template, fields, n - 1) + Count(template, fields[n - 1].tag)
  }

  /** How many of the first n tags stand in it at all. */
  function Kinds(template: string, fields: seq<Field>, n: nat): nat
    requires n <= |fields|
  {
    if n == 0 then 0 else
      Kinds(template, fields, n - 1) + if Count(template, fields[n - 1].tag) > 0 then 1 else 0
  }

  datatype Rank = Rank(uses: nat, kinds: nat, template: string)

  function RankOf(template: string, fields: seq<Field>): Rank {
    Rank(Uses(template, fields, |fields|), Kinds(template, fields, |fields|), template)
  }

  /** More tags first, then more different tags, then the later name. */
  predicate Above(a: Rank, b: Rank) {
    a.uses > b.uses || (a.uses == b.uses
        && (a.kinds > b.kinds || (a.kinds == b.kinds && Precedes(b.template, a.template))))
  }

  predicate Preferred(a: string, b: string, fields: seq<Field>) {
    Above(RankOf(a, fields), RankOf(b, fields))
  }

  lemma AboveIsTotal(a: Rank, b: Rank)
    ensures a == b ==> !Above(a, b)
    ensures a.template != b.template ==> Above(a, b) != Above(b, a)
  {
    PrecedesIsTotal(a.template, b.template);
  }

  lemma AboveIsTransitive(a: Rank, b: Rank, c: Rank)
    requires Above(a, b) && Above(b, c)
    ensures Above(a, c)
  {
    if a.uses == b.uses == c.uses && a.kinds == b.kinds == c.kinds {
      PrecedesIsTransitive(c.template, b.template, a.template);
    }
  }

  predicate IsTop(candidates: set<string>, t: string, fields: seq<Field>) {
    t in candidates && forall c :: c in candidates && c != t ==> Preferred(t, c, fields)
  }

  lemma {:induction false} SomeTop(candidates: set<string>, fields: seq<Field>)
    requires candidates != {}
    ensures exists t :: IsTop(candidates, t, fields)
    decreases |candidates|
  {
    var t :| t in candidates;
    var rest := candidates - {t};
    if rest == {} {
      assert IsTop(candidates, t, fields) by { assert forall c :: c in candidates ==> c == t || c in rest; }
    } else {
      SomeTop(rest, fields);
      var top :| IsTop(rest, top, fields);
      TopOfMore(candidates, t, top, fields);
    }
  }

  lemma TopOfMore(candidates: set<string>, t: string, top: string, fields: seq<Field>)
    requires t in candidates && t != top && IsTop(candidates - {t}, top, fields)
    ensures IsTop(candidates, if Preferred(top, t, fields) then top else t, fields)
  {
    AboveIsTotal(RankOf(t, fields), RankOf(top, fields));
    forall c | c in candidates && c != t && c != top && Preferred(t, top, fields) ensures Preferred(t, c, fields) {
      assert c in candidates - {t} && Preferred(top, c, fields);
      AboveIsTransitive(RankOf(t, fields), RankOf(top, fields), RankOf(c, fields));
    }
  }

  lemma OneTop(candidates: set<string>, fields: seq<Field>)
    ensures forall a, b :: IsTop(candidates, a, fields) && IsTop(candidates, b, fields) ==> a == b
  {
    forall a, b | IsTop(candidates, a, fields) && IsTop(candidates, b, fields) ensures a == b {
      AboveIsTotal(RankOf(a, fields), RankOf(b, fields));
    }
  }

  function Top(candidates: set<string>, fields: seq<Field>): (t: string)
    requires candidates != {}
    ensures IsTop(candidates, t, fields)
  {
    SomeTop(candidates, fields);
    OneTop(candidates, fields);
    var t :| t in candidates && IsTop(candidates, t, fields);
    t
  }

  // ---- the template all rows share ----------------------------------------------------------------------------------

  predicate Fits(candidate: string, row: Filled) {
    Rendered(candidate, row.fields) == Some(row.value) || candidate == row.value == ""
  }

  predicate FitsAll(candidate: string, rows: seq<Filled>) {
    forall i :: 0 <= i < |rows| ==> Fits(candidate, rows[i])
  }

  /** The first candidate, the most preferred first, that every row fits. */
  function Choose(candidates: set<string>, fields: seq<Field>, rows: seq<Filled>): Maybe<string>
    decreases |candidates|
  {
    if candidates == {} then None else
      var t := Top(candidates, fields);
      if FitsAll(t, rows) then Some(t) else Choose(candidates - {t}, fields, rows)
  }

  function Shared(rows: seq<Filled>): Maybe<string> {
    if rows == [] then None
    else Choose(Candidates(rows[0].value, rows[0].fields), rows[0].fields, rows)
  }

  method SharedTemplate(rows: seq<Filled>) returns (shared: Maybe<string>)
    ensures shared == Shared(rows)
  {
    if rows == [] {
      return None;
    }
    var left := TemplatesOf(rows[0].value, rows[0].fields);
    while left != {}
      invariant Shared(rows) == Choose(left, rows[0].fields, rows)
      decreases |left|
    {
      var candidate := Top(left, rows[0].fields);
      var fits := EveryRowFits(candidate, rows);
      if fits {
        return Some(candidate);
      }
      left := left - {candidate};
    }
    shared := None;
  }

  method EveryRowFits(candidate: string, rows: seq<Filled>) returns (fits: bool)
    ensures fits == FitsAll(candidate, rows)
  {
    for i := 0 to |rows|
      invariant forall j :: 0 <= j < i ==> Fits(candidate, rows[j])
    {
      var name := Render(candidate, rows[i].fields);
      if name != Some(rows[i].value) && !(candidate == rows[i].value == "") {
        return false;
      }
    }
    fits := true;
  }

  /** The choice is a candidate every row fits, none preferred to it does, and there is one whenever some candidate
      fits. */
  lemma {:induction false} ChooseIsBest(candidates: set<string>, fields: seq<Field>, rows: seq<Filled>, other: string)
    requires other in candidates && FitsAll(other, rows)
    ensures var shared := Choose(candidates, fields, rows);
            && shared.Some? && shared.value in candidates && FitsAll(shared.value, rows)
            && !Preferred(other, shared.value, fields)
    decreases |candidates|
  {
    var t := Top(candidates, fields);
    AboveIsTotal(RankOf(t, fields), RankOf(other, fields));
    if !FitsAll(t, rows) {
      ChooseIsBest(candidates - {t}, fields, rows, other);
    }
  }

  lemma {:induction false} ChooseFits(candidates: set<string>, fields: seq<Field>, rows: seq<Filled>)
    requires Choose(candidates, fields, rows).Some?
    ensures Choose(candidates, fields, rows).value in candidates
    ensures FitsAll(Choose(candidates, fields, rows).value, rows)
    decreases |candidates|
  {
    var t := Top(candidates, fields);
    if !FitsAll(t, rows) {
      ChooseFits(candidates - {t}, fields, rows);
    }
  }

  lemma SharedFits(rows: seq<Filled>)
    requires Shared(rows).Some?
    ensures FitsAll(Shared(rows).value, rows)
  {
    ChooseFits(Candidates(rows[0].value, rows[0].fields), rows[0].fields, rows);
  }

  /** Inference finds a template whenever one proper for the first row fits them all, and no such template is preferred
      to the one it gives. */
  lemma SharedIsFound(rows: seq<Filled>, template: string)
    requires rows != [] && FitsAll(template, rows) && template != ""
    requires var first := rows[0];
             && Tags(first.fields) && Closed(first.fields)
             && '{' !in first.value && Trimmed(first.value) && first.value != ""
             && |BuiltFrom(first.value, first.fields, 0)| < LIMIT
             && Proper(template, first.fields)
    ensures Shared(rows).Some? && FitsAll(Shared(rows).value, rows)
    ensures !Preferred(template, Shared(rows).value, rows[0].fields)
  {
    var first := rows[0];
    assert Fits(template, first);
    CandidatesAreAll(first.value, first.fields, template);
    ChooseIsBest(Candidates(first.value, first.fields), first.fields, rows, template);
  }

  /** Rows with one value always share a template. */
  lemma OneValueIsShared(rows: seq<Filled>, value: string)
    requires rows != [] && '{' !in value && Trimmed(value) && value != ""
    requires forall i :: 0 <= i < |rows| ==> rows[i].value == value && Tags(rows[i].fields) && Closed(rows[i].fields)
    ensures Shared(rows).Some?
  {
    forall i | 0 <= i < |rows| ensures Fits(value, rows[i]) { LiteralFillsBack(value, rows[i].fields); }
    KeptIs(Found(value, rows[0].fields), value, rows[0].fields, value);
    ChooseIsBest(Candidates(value, rows[0].fields), rows[0].fields, rows, value);
  }
}
