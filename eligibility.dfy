/**
 * The eligibility set: `load_mobile_set` (run1.py:137-149) reads the records
 * file once and keeps the non-empty normalised mobile numbers.
 *
 * The file is abstracted as its header (the field names) and, per data row,
 * the value `row.get("mobile")` returns: `None` when the row has no cell for
 * that column.
 */
module Eligibility {
  import opened Wrappers
  import opened Mobile

  /** A records file as the CSV reader sees it. */
  datatype Csv = Csv(fieldNames: seq<string>, mobiles: seq<Option<string>>)

  /** Why the set could not be built. */
  datatype LoadError =
    | CsvNotFound          // FileNotFoundError: the file does not exist
    | MissingMobileColumn  // ValueError: the header has no "mobile" field

  const MOBILE_COLUMN: string := "mobile"

  /** The normalised mobile of one row as a set: empty when it normalises to "". */
  function RowMobile(m: Option<string>): set<string> {
    var n := NormalizeMobile(m);
    if n != "" then {n} else {}
  }

  /** The non-empty normalised mobiles of the rows, gathered row by row. */
  function MobileSetOf(mobiles: seq<Option<string>>): set<string> {
    if mobiles == [] then {}
    else MobileSetOf(mobiles[..|mobiles| - 1]) + RowMobile(mobiles[|mobiles| - 1])
  }

  /**
   * `load_mobile_set`: a missing file and a header without a "mobile" column
   * are errors; otherwise every row's normalised mobile, when non-empty, is
   * added to the set.
   */
  method LoadMobileSet(file: Option<Csv>) returns (r: Result<set<string>, LoadError>)
    ensures file.None? ==> r == Err(CsvNotFound)
    ensures file.Some? && MOBILE_COLUMN !in file.value.fieldNames ==> r == Err(MissingMobileColumn)
    ensures file.Some? && MOBILE_COLUMN in file.value.fieldNames ==> r == Ok(MobileSetOf(file.value.mobiles))
  {
    if file.None? {
      return Err(CsvNotFound);
    }
    var csv := file.value;
    if MOBILE_COLUMN !in csv.fieldNames {
      return Err(MissingMobileColumn);
    }
    var s: set<string> := {};
    var i := 0;
    while i < |csv.mobiles|
      invariant 0 <= i <= |csv.mobiles|
      invariant s == MobileSetOf(csv.mobiles[..i])
    {
      var m := NormalizeMobile(csv.mobiles[i]);
      assert csv.mobiles[..i + 1][..i] == csv.mobiles[..i];
      if m != "" {
        s := s + {m};
      }
      i := i + 1;
    }
    assert csv.mobiles[..i] == csv.mobiles;
    return Ok(s);
  }

  /**
   * Every member of the eligibility set is a non-empty string of at most ten
   * digits that normalisation leaves unchanged, and a mobile is in the set
   * exactly when some row normalises to it and it is non-empty.
   */
  lemma MobileSetMembers(mobiles: seq<Option<string>>, x: string)
    ensures x in MobileSetOf(mobiles) ==>
      x != "" && |x| <= MAX_MOBILE_DIGITS && AllDigits(x) && NormalizeMobile(Some(x)) == x
    ensures x in MobileSetOf(mobiles) <==> x != "" && OccursIn(mobiles, x)
  {
    MobileSetOfMembers(mobiles, x);
    if x in MobileSetOf(mobiles) {
      var i :| 0 <= i < |mobiles| && NormalizeMobile(mobiles[i]) == x;
      NormalizeMobileIdempotent(mobiles[i]);
    }
  }

  /** Some row normalises to `x`. */
  ghost predicate OccursIn(mobiles: seq<Option<string>>, x: string) {
    exists i :: 0 <= i < |mobiles| && NormalizeMobile(mobiles[i]) == x
  }

  /** The normalised mobile of every row, in row order. */
  function NormalisedRows(mobiles: seq<Option<string>>): (r: seq<string>)
    ensures |r| == |mobiles|
    ensures forall i :: 0 <= i < |mobiles| ==> r[i] == NormalizeMobile(mobiles[i])
  {
    if mobiles == [] then []
    else NormalisedRows(mobiles[..|mobiles| - 1]) + [NormalizeMobile(mobiles[|mobiles| - 1])]
  }

  /** Membership in the row-by-row set is membership in the comprehension. */
  lemma {:induction false} MobileSetOfMembers(mobiles: seq<Option<string>>, x: string)
    ensures x in MobileSetOf(mobiles) <==> x != "" && OccursIn(mobiles, x)
  {
    RowsMembers(mobiles, x);
    var rows := NormalisedRows(mobiles);
    if x in rows {
      var i :| 0 <= i < |rows| && rows[i] == x;
      assert NormalizeMobile(mobiles[i]) == x;
    }
  }

  /** The set holds exactly the non-empty normalised rows. */
  lemma {:induction false} RowsMembers(mobiles: seq<Option<string>>, x: string)
    ensures x in MobileSetOf(mobiles) <==> x != "" && x in NormalisedRows(mobiles)
  {
    if mobiles != [] {
      RowsMembers(mobiles[..|mobiles| - 1], x);
    }
  }
}
