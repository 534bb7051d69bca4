// The data migration that gives every job run without an idempotency key
// the key "legacy-<id>". At that point in the schema history the key column
// is nullable, so rows carry an optional key.
module Backfill {
  import opened Wrappers
  import opened Text

  /** A job-run row as the migration sees it. */
  datatype LegacyJobRow = LegacyJobRow(id: nat, key: Option<string>)

  /** The key a row without one receives. */
  function LegacyKey(id: nat): string {
    "legacy-" + NatToString(id)
  }

  /** One row after the migration. */
  function BackfillRow(row: LegacyJobRow): (r: LegacyJobRow)
    ensures r.id == row.id && r.key.Some?
    ensures row.key.Some? ==> r == row
    ensures row.key.None? ==> r.key == Some(LegacyKey(row.id))
  {
    if row.key.None? then LegacyJobRow(row.id, Some(LegacyKey(row.id))) else row
  }

  /** The whole table after the migration. */
  function BackfillAll(rows: seq<LegacyJobRow>): (r: seq<LegacyJobRow>)
    ensures |r| == |rows|
    ensures forall i :: 0 <= i < |rows| ==> r[i] == BackfillRow(rows[i])
  {
    seq(|rows|, i requires 0 <= i < |rows| => BackfillRow(rows[i]))
  }

  /** The migration loop: each row with a NULL key gets its legacy key and
      is saved; rows that already have a key, the empty key included, are
      not touched. */
  method RunBackfill(rows: array<LegacyJobRow>)
    modifies rows
    ensures rows[..] == BackfillAll(old(rows[..]))
  {
    var i := 0;
    while i < rows.Length
      invariant 0 <= i <= rows.Length
      invariant forall j :: 0 <= j < i ==> rows[j] == BackfillRow(old(rows[j]))
      invariant forall j :: i <= j < rows.Length ==> rows[j] == old(rows[j])
    {
      if rows[i].key.None? {
        rows[i] := LegacyJobRow(rows[i].id, Some(LegacyKey(rows[i].id)));
      }
      i := i + 1;
    }
  }

  /** Running the migration a second time changes nothing. */
  lemma BackfillIdempotent(rows: seq<LegacyJobRow>)
    ensures BackfillAll(BackfillAll(rows)) == BackfillAll(rows)
  {
  }

  /** Distinct rows receive distinct legacy keys. */
  lemma LegacyKeysDistinct(a: nat, b: nat)
    requires a != b
    ensures LegacyKey(a) != LegacyKey(b)
  {
    if LegacyKey(a) == LegacyKey(b) {
      var p := "legacy-";
      assert LegacyKey(a)[|p|..] == NatToString(a);
      assert LegacyKey(b)[|p|..] == NatToString(b);
      NatToStringInjective(a, b);
    }
  }
}
