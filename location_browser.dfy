/** The venue list of src/components/LocationBrowser.tsx: a constant
    catalog filtered by a case-insensitive search term (matched against the
    name or the type) and an exact type filter ("Alle" lets every type
    through); each card shows at most three amenities and a "+n mehr" chip
    for the rest. */
module LocationBrowser {
  import opened Wrappers
  import opened Seqs

  datatype Location = Location(
    id: string,
    name: string,
    kind: string,
    address: string,
    price: int,
    available: bool,
    amenities: seq<string>)

  function SampleLocations(): seq<Location> {
    [ Location("1", "Escape Universe", "Escape Room", "Hauptstraße 123, München", 29, true,
               ["Parkplätze", "Getränke", "Fotoshooting"]),
      Location("2", "Party Basement", "Partykeller", "Kellerstraße 45, München", 150, true,
               ["Sound-System", "Karaoke", "Bar", "Lichtshow"]),
      Location("3", "Craft Beer Garden", "Bar", "Bierstraße 78, München", 45, false,
               ["50+ Biere", "Live-Musik", "Snacks", "Terrasse"]) ]
  }

  /** The filter chip that selects every type. */
  const AllTypes := "Alle"

  /** `toLowerCase` on one character, for the ASCII letters. */
  function LowerChar(c: char): char {
    if 'A' <= c <= 'Z' then (c as int + 32) as char else c
  }

  function Lower(s: string): (r: string)
    ensures |r| == |s|
    ensures forall i :: 0 <= i < |s| ==> r[i] == LowerChar(s[i])
  {
    if s == [] then [] else [LowerChar(s[0])] + Lower(s[1..])
  }

  /** `t` occurs in `s` starting at index `i`. */
  predicate OccursAt(s: string, t: string, i: nat) {
    i + |t| <= |s| && s[i..i + |t|] == t
  }

  /** Whether `t` occurs in `s` as a contiguous piece, starting anywhere. */
  predicate Includes(s: string, t: string) {
    t <= s || (s != [] && Includes(s[1..], t))
  }

  lemma {:induction false} OccursImpliesIncludes(s: string, t: string, i: nat)
    requires OccursAt(s, t, i)
    ensures Includes(s, t)
    decreases i
  {
    if i == 0 {
      assert s[..|t|] == t;
    } else {
      assert s[1..][i - 1..i - 1 + |t|] == s[i..i + |t|];
      OccursImpliesIncludes(s[1..], t, i - 1);
    }
  }

  lemma {:induction false} IncludesImpliesOccurs(s: string, t: string) returns (i: nat)
    requires Includes(s, t)
    ensures OccursAt(s, t, i)
  {
    if t <= s {
      i := 0;
      assert s[..|t|] == t;
    } else {
      var j := IncludesImpliesOccurs(s[1..], t);
      assert s[1..][j..j + |t|] == s[j + 1..j + 1 + |t|];
      i := j + 1;
    }
  }

  /** `includes` holds exactly when the term occurs at some position. */
  lemma IncludesIffOccurs(s: string, t: string)
    ensures Includes(s, t) <==> exists i: nat :: OccursAt(s, t, i)
  {
    if Includes(s, t) {
      var i := IncludesImpliesOccurs(s, t);
    }
    if exists i: nat :: OccursAt(s, t, i) {
      var i: nat :| OccursAt(s, t, i);
      OccursImpliesIncludes(s, t, i);
    }
  }

  predicate MatchesSearch(l: Location, searchTerm: string) {
    Includes(Lower(l.name), Lower(searchTerm)) || Includes(Lower(l.kind), Lower(searchTerm))
  }

  predicate MatchesFilter(l: Location, selectedFilter: string) {
    selectedFilter == AllTypes || l.kind == selectedFilter
  }

  /** `filteredLocations`: an order-preserving selection that keeps a
      location exactly when it matches both the search and the filter. */
  function FilteredLocations(c: seq<Location>, searchTerm: string, selectedFilter: string): (r: seq<Location>)
    ensures SubsequenceOf(r, c)
    ensures forall l :: l in r <==>
      l in c
      && (Includes(Lower(l.name), Lower(searchTerm)) || Includes(Lower(l.kind), Lower(searchTerm)))
      && (selectedFilter == AllTypes || l.kind == selectedFilter)
    ensures forall l :: multiset(r)[l]
                     == (if MatchesSearch(l, searchTerm) && MatchesFilter(l, selectedFilter) then multiset(c)[l] else 0)
  {
    FilterCount(c, (l: Location) => MatchesSearch(l, searchTerm) && MatchesFilter(l, selectedFilter));
    Filter(c, (l: Location) => MatchesSearch(l, searchTerm) && MatchesFilter(l, selectedFilter))
  }

  /** No search term and the "Alle" filter show the whole catalog. */
  lemma EmptySearchShowsAll(c: seq<Location>)
    ensures FilteredLocations(c, "", AllTypes) == c
  {
    FilterKeepsAll(c, (l: Location) => MatchesSearch(l, "") && MatchesFilter(l, AllTypes));
  }

  /** The search ignores the case of the term: a term and its lowercase
      form select the same locations. */
  lemma SearchIgnoresCase(c: seq<Location>, searchTerm: string, selectedFilter: string)
    ensures FilteredLocations(c, Lower(searchTerm), selectedFilter) == FilteredLocations(c, searchTerm, selectedFilter)
  {
    assert Lower(Lower(searchTerm)) == Lower(searchTerm);
    FilterCongruent(c,
      (l: Location) => MatchesSearch(l, Lower(searchTerm)) && MatchesFilter(l, selectedFilter),
      (l: Location) => MatchesSearch(l, searchTerm) && MatchesFilter(l, selectedFilter));
  }

  /** The type filter is case-sensitive: "escape room" selects nothing of
      the catalog although "Escape Room" selects the escape room. */
  lemma TypeFilterIsExact(searchTerm: string)
    ensures FilteredLocations(SampleLocations(), searchTerm, "escape room") == []
    ensures SampleLocations()[0] in FilteredLocations(SampleLocations(), "", "Escape Room")
  {
    NoLocationOfType(searchTerm, "escape room");
    var l := SampleLocations()[0];
    assert Lower("") == [];
    assert MatchesSearch(l, "") && MatchesFilter(l, "Escape Room");
  }

  /** A type chip that names no catalog type selects nothing. */
  lemma NoLocationOfType(searchTerm: string, selectedFilter: string)
    requires selectedFilter != AllTypes
    requires forall l :: l in SampleLocations() ==> l.kind != selectedFilter
    ensures FilteredLocations(SampleLocations(), searchTerm, selectedFilter) == []
  {
    FilterNone(SampleLocations(), (l: Location) => MatchesSearch(l, searchTerm) && MatchesFilter(l, selectedFilter));
  }

  /** The "Club" chip matches no catalog entry, so the empty-state message
      is shown whatever the search term. */
  lemma ClubFilterEmpty(searchTerm: string)
    ensures FilteredLocations(SampleLocations(), searchTerm, "Club") == []
  {
    NoLocationOfType(searchTerm, "Club");
  }

  /** How many amenity badges a card shows. */
  const MaxShownAmenities := 3

  /** The badges a card shows: the first three amenities, or all of them when
      there are fewer. */
  function ShownAmenities(amenities: seq<string>): (r: seq<string>)
    ensures r <= amenities
    ensures |r| <= MaxShownAmenities
    ensures |r| == |amenities| || |r| == MaxShownAmenities
  {
    if |amenities| <= MaxShownAmenities then amenities else amenities[..MaxShownAmenities]
  }

  /** The "+n mehr" chip, present when more than three amenities exist. */
  function MoreChip(amenities: seq<string>): Option<int> {
    if |amenities| > MaxShownAmenities then Some(|amenities| - MaxShownAmenities) else None
  }

  /** Every amenity is either shown or counted by the chip, and the chip
      appears exactly when some amenity is hidden. */
  lemma AmenitiesAccounted(amenities: seq<string>)
    ensures |ShownAmenities(amenities)| + (if MoreChip(amenities).Some? then MoreChip(amenities).value else 0)
         == |amenities|
    ensures MoreChip(amenities).Some? <==> |ShownAmenities(amenities)| < |amenities|
    ensures MoreChip(amenities).Some? ==> MoreChip(amenities).value >= 1
  {
  }
}
