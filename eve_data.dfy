/** The system-to-region lookup. The table is a parameter: reading it from disk is not
    part of this model, only what a failed read leaves behind. */
module EveData {
  import opened Wrappers
  import opened Strings

  /** `SYSTEM_TO_REGION`: the loaded table, or the empty one when loading failed. */
  function RegionTable(loaded: Option<map<string, string>>): map<string, string> {
    match loaded
    case Some(table) => table
    case None => map[]
  }

  /** `get_region`: the upper-cased name is looked up, "Unknown" when absent. */
  function GetRegion(table: map<string, string>, system: string): (r: string)
    ensures Upper(system) in table ==> r == table[Upper(system)]
    ensures Upper(system) !in table ==> r == "Unknown"
  {
    if Upper(system) in table then table[Upper(system)] else "Unknown"
  }

  /** The lookup ignores the case of its argument. */
  lemma GetRegionCaseInsensitive(table: map<string, string>, system: string)
    ensures GetRegion(table, system) == GetRegion(table, Upper(system))
  {
    UpperIdempotent(system);
  }

  /** A key holding a lower-case letter is never looked up, whatever the argument. */
  lemma LowerCaseKeyUnreachable(key: string, system: string)
    requires exists i :: 0 <= i < |key| && IsLowerLetter(key[i])
    ensures Upper(system) != key
  {
    UpperHasNoLowerLetter(system);
  }

  /** When the table could not be loaded every lookup answers "Unknown". */
  lemma FailedLoadUnknown(system: string)
    ensures GetRegion(RegionTable(None), system) == "Unknown"
  {
  }
}
