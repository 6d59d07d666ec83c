/** The original-release-year policy of `get_original_release_year`: a usable fallback
    year wins, then an unexpired metadata-cache entry, then the earliest valid year among
    the release dates the discography lookup returns, and otherwise the current year. */
module YearResolver {
  import opened Common
  import opened PyInt

  const MinYear := 1900
  /** The metadata cache entry written after a successful lookup lives 30 days. */
  const MetadataTtlSeconds := 30 * 24 * 60 * 60

  predicate InRange(year: int, currentYear: int) {
    MinYear <= year <= currentYear
  }

  /** A `track_metadata` document, keyed elsewhere by (track name, artist name). */
  datatype MetadataEntry = MetadataEntry(originalYear: int, expiresAt: int)

  /** What the discography lookup yields: a failure (transport error, error status,
      unreadable body), or the `date` field of each release (`None` when absent or null). */
  datatype LookupReply = LookupFailed | LookupOk(releaseDates: seq<Option<string>>)

  /** `s.split('-')[0]`: everything before the first `-`. */
  function BeforeFirstDash(s: string): string {
    if s == [] || s[0] == '-' then [] else [s[0]] + BeforeFirstDash(s[1..])
  }

  lemma {:induction false} BeforeFirstDashSpec(s: string)
    ensures var p := BeforeFirstDash(s);
      && p <= s
      && '-' !in p
      && (|p| == |s| || s[|p|] == '-')
  {
    if s != [] && s[0] != '-' {
      BeforeFirstDashSpec(s[1..]);
    }
  }

  lemma {:induction false} BeforeFirstDashOf(a: string, rest: string)
    requires '-' !in a
    ensures BeforeFirstDash(a + "-" + rest) == a
  {
    if a != [] {
      assert (a + "-" + rest)[1..] == a[1..] + "-" + rest;
      BeforeFirstDashOf(a[1..], rest);
    }
  }

  /** The year a release counts for: its date is present and non-empty, the part before
      the first `-` parses as an integer, and that integer lies in [1900, current year]. */
  function DateYear(date: Option<string>, currentYear: int): Option<int> {
    if date.None? || date.value == "" then None
    else
      match ParseInt(BeforeFirstDash(date.value))
      case None => None
      case Some(y) => if InRange(y, currentYear) then Some(y) else None
  }

  /** A date written `YYYY-...` counts for the year `YYYY` when that year is in range
      (and its rendering within the digit limit of `int()`). */
  lemma DateYearOfDecimal(y: nat, rest: string, currentYear: int)
    requires InRange(y, currentYear) && |Decimal(y)| <= MaxStrDigits
    ensures DateYear(Some(Decimal(y) + "-" + rest), currentYear) == Some(y)
  {
    DecimalIsDigits(y);
    assert '-' !in Decimal(y);
    BeforeFirstDashOf(Decimal(y), rest);
    ParseDecimal(y);
  }

  /** A date whose part before the first `-` holds a character other than an ASCII digit,
      `_`, a sign or the whitespace `int()` strips (a letter, say, or an ASCII separator
      U+001C to U+001F) counts for no year: the `ValueError` is caught and the release
      skipped. */
  lemma DateYearRejectsForeign(date: string, i: nat, currentYear: int)
    requires i < |date| && IsForeign(date[i]) && '-' !in date[..i]
    ensures DateYear(Some(date), currentYear) == None
  {
    BeforeFirstDashSpec(date);
    var p := BeforeFirstDash(date);
    assert p[i] == date[i];
    ParseRejectsForeign(p, i);
  }

  /** "\u001c1999-01-01" counts for no year, although `str.isspace()` accepts its first character. */
  lemma DateYearSeparatorExample(currentYear: int)
    ensures DateYear(Some("\U{1c}1999-01-01"), currentYear) == None
  {
    DateYearRejectsForeign("\U{1c}1999-01-01", 0, currentYear);
  }

  /** The earliest year of `ys`, folding in order; `None` where no year counts. */
  function EarliestOf(ys: seq<Option<int>>): Option<int>
    decreases |ys|
  {
    if ys == [] then None
    else
      var rest := EarliestOf(ys[..|ys| - 1]);
      match ys[|ys| - 1]
      case None => rest
      case Some(y) => if rest.Some? && rest.value <= y then rest else Some(y)
  }

  /** The year each release date counts for. */
  function DateYears(dates: seq<Option<string>>, currentYear: int): (ys: seq<Option<int>>)
    ensures |ys| == |dates| && forall i :: 0 <= i < |dates| ==> ys[i] == DateYear(dates[i], currentYear)
  {
    seq(|dates|, i requires 0 <= i < |dates| => DateYear(dates[i], currentYear))
  }

  /** The earliest counting year among the release dates, scanned in order. */
  function EarliestYear(dates: seq<Option<string>>, currentYear: int): Option<int> {
    EarliestOf(DateYears(dates, currentYear))
  }

  lemma {:induction false} EarliestOfIsMinimum(ys: seq<Option<int>>)
    ensures EarliestOf(ys).None? <==> forall i :: 0 <= i < |ys| ==> ys[i].None?
    ensures EarliestOf(ys).Some? ==> exists i :: 0 <= i < |ys| && ys[i] == EarliestOf(ys)
    ensures forall i :: 0 <= i < |ys| && ys[i].Some? ==>
      EarliestOf(ys).Some? && EarliestOf(ys).value <= ys[i].value
    decreases |ys|
  {
    if ys != [] {
      var n := |ys| - 1;
      var init := ys[..n];
      EarliestOfIsMinimum(init);
      assert forall i :: 0 <= i < n ==> init[i] == ys[i];
      var r := EarliestOf(ys);
      if r.Some? && ys[n] != r {
        var i :| 0 <= i < n && init[i] == EarliestOf(init);
        assert ys[i] == r;
      }
    }
  }

  /** The earliest year is the minimum of the counting years: it is one of them, it is no
      later than any of them, and there is none exactly when no date counts. */
  lemma EarliestYearIsMinimum(dates: seq<Option<string>>, currentYear: int)
    ensures EarliestYear(dates, currentYear).None? <==>
      forall i :: 0 <= i < |dates| ==> DateYear(dates[i], currentYear).None?
    ensures EarliestYear(dates, currentYear).Some? ==>
      exists i :: 0 <= i < |dates| && DateYear(dates[i], currentYear) == EarliestYear(dates, currentYear)
    ensures forall i :: 0 <= i < |dates| && DateYear(dates[i], currentYear).Some? ==>
      EarliestYear(dates, currentYear).Some? &&
      EarliestYear(dates, currentYear).value <= DateYear(dates[i], currentYear).value
  {
    var ys := DateYears(dates, currentYear);
    EarliestOfIsMinimum(ys);
    if EarliestOf(ys).Some? {
      var i :| 0 <= i < |ys| && ys[i] == EarliestOf(ys);
      assert DateYear(dates[i], currentYear) == EarliestYear(dates, currentYear);
    }
  }

  /** Every counting year, and so the earliest one, lies in [1900, current year]. */
  lemma EarliestYearInRange(dates: seq<Option<string>>, currentYear: int)
    ensures EarliestYear(dates, currentYear).Some? ==>
      InRange(EarliestYear(dates, currentYear).value, currentYear)
  {
    EarliestYearIsMinimum(dates, currentYear);
  }

  /** The `for release in data.get('releases', [])` loop: `earliest` starts at the current
      year and `found` at false; a release updates them when its year counts and is earlier
      than the best so far, or is the first to count. */
  method ScanReleaseDates(dates: seq<Option<string>>, currentYear: int) returns (found: bool, earliest: int)
    ensures found == EarliestYear(dates, currentYear).Some?
    ensures earliest == if found then EarliestYear(dates, currentYear).value else currentYear
  {
    earliest := currentYear;
    found := false;
    ghost var ys := DateYears(dates, currentYear);
    for i := 0 to |dates|
      invariant found == EarliestOf(ys[..i]).Some?
      invariant earliest == if found then EarliestOf(ys[..i]).value else currentYear
    {
      assert ys[..i + 1][..i] == ys[..i];
      var date := dates[i];
      if date.Some? && date.value != "" {
        var year := ParseInt(BeforeFirstDash(date.value));
        if year.Some? && MinYear <= year.value <= currentYear {
          if year.value < earliest || !found {
            earliest := year.value;
            found := true;
          }
        }
      }
    }
    assert ys[..|dates|] == ys;
  }

  /** Which step of the policy decided the year. */
  datatype YearSource = FromFallback | FromCache | FromLookup | CurrentYearDefault

  /** The year returned, who decided it, and the metadata entry upserted (if any). */
  datatype Resolution = Resolution(year: int, source: YearSource, write: Option<MetadataEntry>)

  /** `if fallback_year and (1900 <= fallback_year <= year)`; a missing fallback is 0. */
  predicate FallbackUsable(fallbackYear: int, currentYear: int) {
    fallbackYear != 0 && InRange(fallbackYear, currentYear)
  }

  predicate MetadataFresh(cached: Option<MetadataEntry>, now: int) {
    cached.Some? && cached.value.expiresAt > now
  }

  /** The whole policy, given the cache entry for (track name, artist name) and the lookup's answer. */
  function Resolve(fallbackYear: int, cached: Option<MetadataEntry>, lookup: LookupReply,
                   now: int, currentYear: int): Resolution
  {
    if FallbackUsable(fallbackYear, currentYear) then Resolution(fallbackYear, FromFallback, None)
    else if MetadataFresh(cached, now) then Resolution(cached.value.originalYear, FromCache, None)
    else
      match lookup
      case LookupFailed => Resolution(currentYear, CurrentYearDefault, None)
      case LookupOk(dates) =>
        match EarliestYear(dates, currentYear)
        case Some(y) => Resolution(y, FromLookup, Some(MetadataEntry(y, now + MetadataTtlSeconds)))
        case None => Resolution(currentYear, CurrentYearDefault, None)
  }

  /** A usable fallback is returned unchanged, whatever the cache and the lookup hold. */
  lemma ResolveFallbackWins(fallbackYear: int, c1: Option<MetadataEntry>, c2: Option<MetadataEntry>,
                            l1: LookupReply, l2: LookupReply, now: int, currentYear: int)
    requires FallbackUsable(fallbackYear, currentYear)
    ensures Resolve(fallbackYear, c1, l1, now, currentYear) == Resolve(fallbackYear, c2, l2, now, currentYear)
    ensures Resolve(fallbackYear, c1, l1, now, currentYear) == Resolution(fallbackYear, FromFallback, None)
  {
  }

  /** Without a usable fallback, an unexpired cache entry decides, whatever the lookup holds. */
  lemma ResolveCacheHit(fallbackYear: int, cached: Option<MetadataEntry>, l1: LookupReply, l2: LookupReply,
                        now: int, currentYear: int)
    requires !FallbackUsable(fallbackYear, currentYear) && MetadataFresh(cached, now)
    ensures Resolve(fallbackYear, cached, l1, now, currentYear) == Resolve(fallbackYear, cached, l2, now, currentYear)
    ensures Resolve(fallbackYear, cached, l1, now, currentYear) ==
      Resolution(cached.value.originalYear, FromCache, None)
  {
  }

  /** Past the fallback and the cache, the result is the minimum counting release year,
      written to the cache with a 30-day expiry; when no date counts, or the lookup fails,
      the current year is returned and nothing is written. */
  lemma ResolveByLookup(fallbackYear: int, cached: Option<MetadataEntry>, lookup: LookupReply,
                        now: int, currentYear: int)
    requires !FallbackUsable(fallbackYear, currentYear) && !MetadataFresh(cached, now)
    ensures var r := Resolve(fallbackYear, cached, lookup, now, currentYear);
      match lookup
      case LookupFailed => r == Resolution(currentYear, CurrentYearDefault, None)
      case LookupOk(dates) =>
        if exists i :: 0 <= i < |dates| && DateYear(dates[i], currentYear).Some? then
          && r.source == FromLookup
          && (exists i :: 0 <= i < |dates| && DateYear(dates[i], currentYear) == Some(r.year))
          && (forall i :: 0 <= i < |dates| && DateYear(dates[i], currentYear).Some? ==>
                r.year <= DateYear(dates[i], currentYear).value)
          && r.write == Some(MetadataEntry(r.year, now + MetadataTtlSeconds))
        else r == Resolution(currentYear, CurrentYearDefault, None)
  {
    if lookup.LookupOk? {
      EarliestYearIsMinimum(lookup.releaseDates, currentYear);
    }
  }

  /** The cache is only ever written with an in-range year from a lookup, expiring in 30 days. */
  lemma ResolveWritesOnlyValidYears(fallbackYear: int, cached: Option<MetadataEntry>, lookup: LookupReply,
                                    now: int, currentYear: int)
    ensures var r := Resolve(fallbackYear, cached, lookup, now, currentYear);
      r.write.Some? ==>
        && r.source == FromLookup
        && r.write.value == MetadataEntry(r.year, now + MetadataTtlSeconds)
        && InRange(r.year, currentYear)
  {
    if lookup.LookupOk? {
      EarliestYearInRange(lookup.releaseDates, currentYear);
    }
  }

  /** With an in-range cache and a current year of at least 1900, every answer is in range. */
  lemma ResolveInRange(fallbackYear: int, cached: Option<MetadataEntry>, lookup: LookupReply,
                       now: int, currentYear: int)
    requires currentYear >= MinYear
    requires cached.Some? ==> InRange(cached.value.originalYear, currentYear)
    ensures InRange(Resolve(fallbackYear, cached, lookup, now, currentYear).year, currentYear)
  {
    if lookup.LookupOk? {
      EarliestYearInRange(lookup.releaseDates, currentYear);
    }
  }

  /** A year found by a lookup is served from the cache, with no lookup, by any later call
      for the same track within 30 days that has no usable fallback. */
  lemma ResolveServedFromCache(f1: int, cached: Option<MetadataEntry>, lookup: LookupReply, now: int,
                               f2: int, l2: LookupReply, later: int, currentYear: int)
    requires Resolve(f1, cached, lookup, now, currentYear).source == FromLookup
    requires now <= later < now + MetadataTtlSeconds
    requires !FallbackUsable(f2, currentYear)
    ensures var r1 := Resolve(f1, cached, lookup, now, currentYear);
      Resolve(f2, r1.write, l2, later, currentYear) == Resolution(r1.year, FromCache, None)
  {
  }

  /** "1967-03-01" counts for 1967. */
  lemma DateYear1967(currentYear: int)
    requires currentYear >= 1967
    ensures DateYear(Some("1967-03-01"), currentYear) == Some(1967)
  {
    assert Decimal(19) == "19";
    assert Decimal(196) == "196";
    assert Decimal(1967) == "1967";
    assert "1967-03-01" == Decimal(1967) + "-" + "03-01";
    DateYearOfDecimal(1967, "03-01", currentYear);
  }

  /** The scenario of a track with no usable fallback whose lookup returns "1967-03-01":
      it resolves to 1967, and a later call whose lookup fails still gets 1967 from the cache. */
  lemma ResolveExample1967(now: int, later: int, currentYear: int)
    requires currentYear >= 1967 && now <= later < now + MetadataTtlSeconds
    ensures var r1 := Resolve(0, None, LookupOk([Some("1967-03-01")]), now, currentYear);
      && r1 == Resolution(1967, FromLookup, Some(MetadataEntry(1967, now + MetadataTtlSeconds)))
      && Resolve(0, r1.write, LookupFailed, later, currentYear).year == 1967
  {
    DateYear1967(currentYear);
    var ys := DateYears([Some("1967-03-01")], currentYear);
    assert ys == [Some(1967)];
    assert ys[..0] == [];
    assert EarliestOf(ys) == Some(1967);
    assert EarliestYear([Some("1967-03-01")], currentYear) == Some(1967);
  }
}
