/**
 * The row classifiers of the metric table. A row holds the four text cells
 * Name, Scope, Type and Active; the sheet forces every cell to plain text,
 * so each field is a string.
 */
module Validator {

  datatype Row = Row(name: string, scope: string, metricType: string, active: string)

  /** The row whose four cells are all blank. */
  const EmptyRow := Row("", "", "", "")

  /** pat occurs in s starting at position i. */
  ghost predicate OccursAt(s: string, pat: string, i: nat) {
    i + |pat| <= |s| && s[i..i + |pat|] == pat
  }

  /** pat occurs somewhere in s. */
  ghost predicate Occurs(s: string, pat: string) {
    exists i: nat :: OccursAt(s, pat, i)
  }

  /**
   * The test of a regular expression made of one literal, such as `/HIT/.test(s)`:
   * the expression is not anchored, so it matches when pat occurs anywhere in s.
   * An alternation `/A|B/` is the disjunction of the tests of A and of B.
   */
  predicate Contains(s: string, pat: string)
    decreases |s|
  {
    if |s| < |pat| then false
    else if s[..|pat|] == pat then true
    else Contains(s[1..], pat)
  }

  /** The scan Contains performs finds pat exactly when pat occurs in s. */
  lemma {:induction false} ContainsIffOccurs(s: string, pat: string)
    ensures Contains(s, pat) <==> Occurs(s, pat)
    decreases |s|
  {
    if |s| < |pat| {
    } else if s[..|pat|] == pat {
      assert OccursAt(s, pat, 0);
    } else {
      ContainsIffOccurs(s[1..], pat);
      forall i: nat | OccursAt(s[1..], pat, i)
        ensures OccursAt(s, pat, i + 1)
      {
        assert s[1..][i..i + |pat|] == s[i + 1..i + 1 + |pat|];
      }
      forall i: nat | OccursAt(s, pat, i)
        ensures i > 0 && OccursAt(s[1..], pat, i - 1)
      {
        assert s[..|pat|] == s[0..|pat|];
        if i > 0 {
          assert s[1..][i - 1..i - 1 + |pat|] == s[i..i + |pat|];
        }
      }
    }
  }

  /**
   * isEmpty: each cell is tested against `/^$/`, which (without the multiline
   * flag) matches only the empty string.
   */
  predicate IsEmpty(row: Row) {
    row.name == "" && row.scope == "" && row.metricType == "" && row.active == ""
  }

  /**
   * isValid: a non-empty name, and the scope, type and active cells each
   * matched by an unanchored alternation of the allowed values.
   */
  predicate IsValid(row: Row) {
    row.name != ""
    && (Contains(row.scope, "HIT") || Contains(row.scope, "PRODUCT"))
    && (Contains(row.metricType, "INTEGER") || Contains(row.metricType, "CURRENCY")
        || Contains(row.metricType, "TIME"))
    && (Contains(row.active, "true") || Contains(row.active, "false"))
  }

  /** The row the data-validation rules of the sheet intend: each cell one of the listed values. */
  predicate IsValidStrict(row: Row) {
    row.name != ""
    && row.scope in {"HIT", "PRODUCT"}
    && row.metricType in {"INTEGER", "CURRENCY", "TIME"}
    && row.active in {"true", "false"}
  }

  /** A row is empty exactly when all four cells are "", and a blank-looking cell is not empty. */
  lemma IsEmptyExactly(row: Row)
    ensures IsEmpty(row) <==> row == EmptyRow
    ensures !IsEmpty(Row(" ", "", "", "")) && !IsEmpty(Row("", "", "", "\t"))
  {
  }

  /** No row is both empty and valid: validity demands a name. */
  lemma EmptyIsNotValid(row: Row)
    ensures !(IsEmpty(row) && IsValid(row))
  {
  }

  /** isValid as substring containment, stated without the scanning function. */
  lemma IsValidMeaning(row: Row)
    ensures IsValid(row) <==>
      row.name != ""
      && (Occurs(row.scope, "HIT") || Occurs(row.scope, "PRODUCT"))
      && (Occurs(row.metricType, "INTEGER") || Occurs(row.metricType, "CURRENCY")
          || Occurs(row.metricType, "TIME"))
      && (Occurs(row.active, "true") || Occurs(row.active, "false"))
  {
    ContainsIffOccurs(row.scope, "HIT");
    ContainsIffOccurs(row.scope, "PRODUCT");
    ContainsIffOccurs(row.metricType, "INTEGER");
    ContainsIffOccurs(row.metricType, "CURRENCY");
    ContainsIffOccurs(row.metricType, "TIME");
    ContainsIffOccurs(row.active, "true");
    ContainsIffOccurs(row.active, "false");
  }

  /** A valid row has no blank cell, so the `||` fallbacks never fire on it. */
  lemma ValidRowHasNoEmptyField(row: Row)
    requires IsValid(row)
    ensures row.name != "" && row.scope != "" && row.metricType != "" && row.active != ""
  {
  }

  /** Every row of the intended form passes the loose test. */
  lemma StrictImpliesLoose(row: Row)
    requires IsValidStrict(row)
    ensures IsValid(row)
  {
  }

  /** The loose test also accepts values outside the enumerations. */
  lemma LooseAcceptsNonEnumValues()
    ensures IsValid(Row("Visits", "HITS", "TIMER", "false!"))
    ensures !IsValidStrict(Row("Visits", "HITS", "TIMER", "false!"))
  {
  }
}
