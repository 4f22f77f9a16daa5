/** The display rules of the catalog-entry detail view: the date range split
    into "First Seen" and "Last Seen", and the fallbacks of the dimensions,
    manuscript and rarity rows and of the rarity badge. */
module EntryDetail {
  import opened Wrappers
  import opened JsStrings

  /** The em dash shown in place of a missing value. */
  const Dash: string := "—"

  datatype SeenYears = SeenYears(firstSeen: string, lastSeen: string)

  /** `value || "—"`. */
  function OrDash(value: string): (r: string)
    ensures r != []
    ensures value != [] ==> r == value
  {
    if value == [] then Dash else value
  }

  /** `parseDateRange`: the trimmed range, split at its first hyphen; a side
      that is empty shows the dash, and so do both sides of a blank range. */
  function ParseDateRange(dateRange: Option<string>): (r: SeenYears)
    ensures r.firstSeen != [] && r.lastSeen != []
  {
    var s := Trim(dateRange.GetOr(""));
    if s == [] then SeenYears(Dash, Dash)
    else match IndexOf(s, '-')
      case None => SeenYears(s, Dash)
      case Some(i) => SeenYears(OrDash(Trim(s[..i])), OrDash(Trim(s[i + 1..])))
  }

  /** A missing or blank range shows the dash twice. */
  lemma ParseBlank(dateRange: Option<string>)
    requires dateRange.None? || Blank(dateRange.value)
    ensures ParseDateRange(dateRange) == SeenYears(Dash, Dash)
  {
    if dateRange.Some? { TrimEmptyIffBlank(dateRange.value); } else { assert Trim("") == []; }
  }

  /** A range without a hyphen is a single first-seen year. */
  lemma ParseWithoutHyphen(dateRange: string)
    requires !Blank(dateRange) && '-' !in Trim(dateRange)
    ensures ParseDateRange(Some(dateRange)) == SeenYears(Trim(dateRange), Dash)
  {
    TrimEmptyIffBlank(dateRange);
  }

  /** The range is split at its FIRST hyphen: further hyphens stay in the
      last-seen part, and both parts are trimmed. */
  lemma ParseAtFirstHyphen(dateRange: string, first: string, last: string)
    requires Trim(dateRange) == first + "-" + last && '-' !in first
    ensures ParseDateRange(Some(dateRange)) == SeenYears(OrDash(Trim(first)), OrDash(Trim(last)))
  {
    var s := first + "-" + last;
    IndexOfAfterPrefix(first, '-', last);
    assert s[..|first|] == first && s[|first| + 1..] == last;
  }

  /** `value?.trim()`, with a null value read as "". */
  function TrimmedText(value: Option<string>): (r: string)
    ensures r == [] <==> value.None? || Blank(value.value)
    ensures value.Some? ==> r == Trim(value.value)
  {
    if value.Some? then TrimEmptyIffBlank(value.value); Trim(value.value) else ""
  }

  /** `value?.trim() || "—"`, the dimensions and manuscript rows. */
  function TrimmedOrDash(value: Option<string>): (r: string)
    ensures r != []
    ensures value.None? || Blank(value.value) ==> r == Dash
    ensures value.Some? && !Blank(value.value) ==> r == Trim(value.value)
  {
    OrDash(TrimmedText(value))
  }

  /** The rarity row: the trimmed rarity, else the trimmed valuation, else
      the dash. */
  function RarityRow(rarity: Option<string>, valuation: Option<string>): (r: string)
    ensures r != []
    ensures rarity.Some? && !Blank(rarity.value) ==> r == Trim(rarity.value)
    ensures (rarity.None? || Blank(rarity.value)) && valuation.Some? && !Blank(valuation.value)
            ==> r == Trim(valuation.value)
    ensures (rarity.None? || Blank(rarity.value)) && (valuation.None? || Blank(valuation.value))
            ==> r == Dash
  {
    var fromRarity := TrimmedText(rarity);
    if fromRarity != [] then fromRarity else OrDash(TrimmedText(valuation))
  }

  /** The rarity badge shows `rarity ?? valuation`, unless that is null or
      the empty string. */
  function RarityBadge(rarity: Option<string>, valuation: Option<string>): (r: Option<string>)
    ensures r.Some? ==> r.value != []
    ensures rarity.Some? ==> r == (if rarity.value == [] then None else rarity)
    ensures rarity.None? ==> r == (if valuation == Some("") then None else valuation)
  {
    var shown := if rarity.Some? then rarity else valuation;
    if shown.Some? && shown.value != [] then shown else None
  }

  /** Because the badge uses `??`, an empty rarity hides it even when a
      valuation is set, while the rarity row falls back to the valuation. */
  lemma EmptyRarityHidesBadge(valuation: string)
    requires !Blank(valuation)
    ensures RarityBadge(Some(""), Some(valuation)) == None
    ensures RarityRow(Some(""), Some(valuation)) == Trim(valuation)
  {
  }
}
