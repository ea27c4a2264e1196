/**
 * The records the formatter reads (a severe weather bulletin's affected
 * areas, the region reference table) and the diagnostic issues it records.
 */
module Bulletin {
  import opened Wrappers
  import opened JsStrings

  /**
   * The `includes` object of an area that covers part of a province: a term
   * such as "mainland", "rest", or a compass phrase; its `part` word, which
   * JavaScript renders as "undefined" when absent; and the municipalities.
   */
  datatype Includes = Includes(term: string, part: Option<string>, municipalities: Option<seq<string>>)

  /**
   * One affected area. `part` is the truthiness of the optional boolean;
   * `includes` is read only when `part` holds.
   */
  datatype Area = Area(province: string, part: bool, includes: Includes)

  /** The `extras` value of a signal level, seen through its own enumerable keys. */
  datatype Extras = Extras(keys: seq<string>)

  /** The `affected_areas` of one signal level. A missing or null list is None. */
  datatype Landmasses = Landmasses(
    luzon: Option<seq<Area>>,
    visayas: Option<seq<Area>>,
    mindanao: Option<seq<Area>>,
    extras: Option<Extras>)

  /** A row of the region reference table. */
  datatype Region = Region(name: string, page: Option<string>, designation: Option<string>, provinces: seq<string>)

  /**
   * A bulletin: whether `typhoon` is null, and the signal levels that are
   * present (truthy) in `storm_signals`, keyed by level.
   */
  datatype Bulletin = Bulletin(typhoonIsNull: bool, stormSignals: map<int, Landmasses>)

  /** A diagnostic recorded during a run. */
  datatype Issue =
    | ExtrasDetected(extras: Extras)
    | RegionNotFound(entry: Area)
    | PageNotFound(province: string)
    | Notice(text: string)
  {
    /** The `message` text of the issue. */
    function Message(): string
    {
      match this
      case ExtrasDetected(_) => "Extras detected."
      case RegionNotFound(e) => "Region for " + e.province + " not found."
      case PageNotFound(p) => "Page not found for province: " + p
      case Notice(t) => t
    }
  }

  /** A key consisting of decimal digits, not all zero. */
  predicate IsPositiveDecimal(key: string)
  {
    && key != []
    && (forall i :: 0 <= i < |key| ==> '0' <= key[i] <= '9')
    && exists i :: 0 <= i < |key| && key[i] != '0'
  }

  /**
   * `Object.keys(extras) > 0`. The key array is converted to the string of
   * its keys joined by commas and that to a number: no keys give 0, two or
   * more keys give NaN (a comma is never part of a numeral), so only a
   * single key whose numeric value is positive makes the test true.
   */
  predicate ExtrasFlagged(e: Extras)
  {
    |e.keys| == 1 && IsPositiveDecimal(e.keys[0])
  }

  /** The keys `Object.keys` gives for an array of `n` elements. */
  function ArrayKeys(n: nat): (keys: seq<string>)
    ensures |keys| == n
    ensures forall i :: 0 <= i < n ==> keys[i] == DecimalString(i)
  {
    seq(n, i requires 0 <= i => DecimalString(i))
  }

  /** An array in `extras`, whatever its length, is never reported. */
  lemma ArrayExtrasNeverFlagged(n: nat)
    ensures !ExtrasFlagged(Extras(ArrayKeys(n)))
  {
    if n == 1 {
      assert ArrayKeys(1)[0] == "0";
    }
  }
}
