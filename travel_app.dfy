/** The destination browser of the travel home screen: a fixed list of
    destinations narrowed by an optional trip tag and an optional search text. */
module TravelApp {
  import opened Seqs
  import opened Strings

  datatype Destination = Destination(id: string, name: string, location: string, image: string, tags: seq<string>)

  /** The sample destinations the screen is seeded with. */
  const AllDestinations: seq<Destination> :=
    [ Destination("1", "Hawa Mahal", "Jaipur",
        "https://images.unsplash.com/photo-1603262110263-fb0112e7cc33?ixlib=rb-4.0.3&auto=format&fit=crop&w=800&q=80",
        ["palace", "historical", "pink city", "jaipur"]),
      Destination("2", "Ganga Aarti", "Varanasi",
        "https://images.unsplash.com/photo-1585496308895-716bead11173?ixlib=rb-4.0.3&auto=format&fit=crop&w=800&q=80",
        ["religious", "river", "ceremony", "varanasi", "kashi"]),
      Destination("3", "Taj Mahal", "Agra",
        "https://images.unsplash.com/photo-1564507592333-c60657eea523?ixlib=rb-4.0.3&auto=format&fit=crop&w=800&q=80",
        ["monument", "historical", "wonder", "agra"]),
      Destination("4", "Mahakaleshwar Temple", "Ujjain",
        "https://images.unsplash.com/photo-1599665877270-6c920b64a9a1?ixlib=rb-4.0.3&auto=format&fit=crop&w=800&q=80",
        ["temple", "religious", "shiva", "ujjain"]),
      Destination("5", "Amber Fort", "Jaipur",
        "https://images.unsplash.com/photo-1587318224017-4bb04d0f6422?ixlib=rb-4.0.3&auto=format&fit=crop&w=800&q=80",
        ["fort", "historical", "jaipur"]),
      Destination("6", "Kashi Vishwanath Temple", "Varanasi",
        "https://images.unsplash.com/photo-1625642225340-b21a2b5fef8e?ixlib=rb-4.0.3&auto=format&fit=crop&w=800&q=80",
        ["temple", "religious", "shiva", "varanasi", "kashi"])
    ]

  /** The trip-tag test: the location, or some tag, equals the selection ignoring case. */
  predicate MatchesTrip(d: Destination, selectedTrip: string)
  {
    Lower(d.location) == Lower(selectedTrip) ||
    Any(d.tags, (tag: string) => Lower(tag) == Lower(selectedTrip))
  }

  /** The search test: the (already lower-cased and trimmed) query occurs in the
      lower-cased name, location or some tag. */
  predicate MatchesQuery(d: Destination, query: string)
  {
    Includes(Lower(d.name), query) ||
    Includes(Lower(d.location), query) ||
    Any(d.tags, (tag: string) => Includes(Lower(tag), query))
  }

  /** The search text as the screen compares it: lower-cased, then trimmed. */
  function NormalizedQuery(searchQuery: string): string
  {
    Trim(Lower(searchQuery))
  }

  /** The filtering effect: start from every destination, keep those matching
      the selected trip when one is selected, then those matching the search
      text when it is not blank. */
  function Filtered(all: seq<Destination>, selectedTrip: string, searchQuery: string): (r: seq<Destination>)
    ensures |r| <= |all|
    ensures forall d :: d in r ==> d in all && Passes(d, selectedTrip, searchQuery)
  {
    var byTrip :=
      if selectedTrip != "" then Filter(all, (d: Destination) => MatchesTrip(d, selectedTrip))
      else all;
    if Trim(searchQuery) != "" then
      var query := NormalizedQuery(searchQuery);
      Filter(byTrip, (d: Destination) => MatchesQuery(d, query))
    else byTrip
  }

  /** Reference definition: a destination passes when it satisfies every active predicate. */
  predicate Passes(d: Destination, selectedTrip: string, searchQuery: string)
  {
    (selectedTrip == "" || MatchesTrip(d, selectedTrip)) &&
    (Trim(searchQuery) == "" || MatchesQuery(d, NormalizedQuery(searchQuery)))
  }

  /** The two filters combine conjunctively: the result is exactly the
      destinations that pass, in their original order. */
  lemma FilteredIsConjunction(all: seq<Destination>, selectedTrip: string, searchQuery: string)
    ensures Filtered(all, selectedTrip, searchQuery) ==
            Filter(all, (d: Destination) => Passes(d, selectedTrip, searchQuery))
  {
    var passes := (d: Destination) => Passes(d, selectedTrip, searchQuery);
    var byTrip := (d: Destination) => MatchesTrip(d, selectedTrip);
    var byQuery := (d: Destination) => MatchesQuery(d, NormalizedQuery(searchQuery));
    if selectedTrip != "" && Trim(searchQuery) != "" {
      FilterTwice(all, byTrip, byQuery, passes);
    } else if selectedTrip != "" {
      FilterTwice(all, byTrip, _ => true, passes);
      FilterKeepsAll(Filter(all, byTrip), _ => true);
    } else if Trim(searchQuery) != "" {
      FilterTwice(all, _ => true, byQuery, passes);
      FilterKeepsAll(all, _ => true);
    } else {
      FilterKeepsAll(all, passes);
    }
  }

  /** Completeness and soundness: a destination of the list is kept exactly
      when it passes every active predicate; the result is an order-preserving
      subsequence of the list. */
  lemma FilteredKeepsExactlyPassing(all: seq<Destination>, selectedTrip: string, searchQuery: string)
    ensures IsSubseq(Filtered(all, selectedTrip, searchQuery), all)
    ensures forall d :: d in Filtered(all, selectedTrip, searchQuery) <==>
                        d in all && Passes(d, selectedTrip, searchQuery)
  {
    FilteredIsConjunction(all, selectedTrip, searchQuery);
  }

  /** With no trip selected and a blank search text the whole list comes back. */
  lemma FilteredIdentity(all: seq<Destination>, searchQuery: string)
    requires IsBlank(searchQuery)
    ensures Filtered(all, "", searchQuery) == all
  {
    TrimEmptyIffBlank(searchQuery);
  }

  /** With a trip selected, every kept destination has its location or one of
      its tags equal to the selection, ignoring case. */
  lemma FilteredMatchesTrip(all: seq<Destination>, selectedTrip: string, searchQuery: string)
    requires selectedTrip != ""
    ensures forall d :: d in Filtered(all, selectedTrip, searchQuery) ==>
              EqualsIgnoringCase(d.location, selectedTrip) ||
              exists k :: 0 <= k < |d.tags| && EqualsIgnoringCase(d.tags[k], selectedTrip)
  {
    FilteredKeepsExactlyPassing(all, selectedTrip, searchQuery);
  }

  /** With a non-blank search text, every kept destination contains the
      lower-cased, trimmed text in its lower-cased name, location or some tag. */
  lemma FilteredMatchesQuery(all: seq<Destination>, selectedTrip: string, searchQuery: string)
    requires !IsBlank(searchQuery)
    ensures forall d :: d in Filtered(all, selectedTrip, searchQuery) ==>
              ContainsQuery(d, Trim(Lower(searchQuery)))
  {
    TrimEmptyIffBlank(searchQuery);
    FilteredKeepsExactlyPassing(all, selectedTrip, searchQuery);
    forall d | d in Filtered(all, selectedTrip, searchQuery)
      ensures ContainsQuery(d, Trim(Lower(searchQuery)))
    {
      MatchesQueryContains(d, NormalizedQuery(searchQuery));
    }
  }

  /** `q` occurs in the lower-cased name, location or some tag of `d`. */
  ghost predicate ContainsQuery(d: Destination, q: string)
  {
    Occurs(q, Lower(d.name)) || Occurs(q, Lower(d.location)) ||
    exists k :: 0 <= k < |d.tags| && Occurs(q, Lower(d.tags[k]))
  }

  /** The trip test holds exactly when the location or some tag equals the
      selection ignoring case. */
  lemma MatchesTripIff(d: Destination, selectedTrip: string)
    ensures MatchesTrip(d, selectedTrip) <==>
              EqualsIgnoringCase(d.location, selectedTrip) ||
              exists k :: 0 <= k < |d.tags| && EqualsIgnoringCase(d.tags[k], selectedTrip)
  {
  }

  /** The search test holds exactly when the query occurs in the lower-cased
      name, location or some tag. */
  lemma MatchesQueryIff(d: Destination, q: string)
    ensures MatchesQuery(d, q) <==> ContainsQuery(d, q)
  {
    if MatchesQuery(d, q) {
      MatchesQueryContains(d, q);
    }
  }

  lemma MatchesQueryContains(d: Destination, q: string)
    requires MatchesQuery(d, q)
    ensures ContainsQuery(d, q)
  {
    if !Includes(Lower(d.name), q) && !Includes(Lower(d.location), q) {
      SomeTagContains(d.tags, q);
    }
  }

  lemma SomeTagContains(tags: seq<string>, q: string)
    requires Any(tags, (tag: string) => Includes(Lower(tag), q))
    ensures exists k :: 0 <= k < |tags| && Occurs(q, Lower(tags[k]))
  {
    var k :| 0 <= k < |tags| && Includes(Lower(tags[k]), q);
    assert Occurs(q, Lower(tags[k]));
  }

  /** On the sample data the trip "Jaipur" selects Hawa Mahal, then Amber Fort. */
  lemma JaipurSample()
    ensures Filtered(AllDestinations, "Jaipur", "") == [AllDestinations[0], AllDestinations[4]]
  {
    JaipurFilter(AllDestinations);
  }

  lemma JaipurFilter(all: seq<Destination>)
    requires all == AllDestinations
    ensures Filtered(all, "Jaipur", "") == [all[0], all[4]]
  {
    JaipurMatches(0); JaipurMatches(1); JaipurMatches(2);
    JaipurMatches(3); JaipurMatches(4); JaipurMatches(5);
    FilterFirstAndFifth(all, (d: Destination) => MatchesTrip(d, "Jaipur"));
  }

  lemma FilterFirstAndFifth(s: seq<Destination>, p: Destination -> bool)
    requires |s| == 6
    requires p(s[0]) && !p(s[1]) && !p(s[2]) && !p(s[3]) && p(s[4]) && !p(s[5])
    ensures Filter(s, p) == [s[0], s[4]]
  {
    assert Filter(s[5..], p) == [];
    assert Filter(s[4..], p) == [s[4]];
    assert Filter(s[1..], p) == [s[4]];
  }

  lemma JaipurMatches(i: nat)
    requires i < |AllDestinations|
    ensures MatchesTrip(AllDestinations[i], "Jaipur") <==> i == 0 || i == 4
  {
    if i !in {0, 4} {
      NotTrip(AllDestinations[i], "Jaipur");
    }
  }

  /** A destination whose location and tags all differ from `trip` in length
      or in their first letter, ignoring case, does not match it. */
  lemma NotTrip(d: Destination, trip: string)
    requires DiffersAtStart(d.location, trip)
    requires forall k :: 0 <= k < |d.tags| ==> DiffersAtStart(d.tags[k], trip)
    ensures !MatchesTrip(d, trip)
  {
    forall s | DiffersAtStart(s, trip) ensures Lower(s) != Lower(trip) {
      if |s| == |trip| { assert Lower(s)[0] != Lower(trip)[0]; }
    }
  }

  predicate DiffersAtStart(s: string, t: string)
  {
    |s| != |t| || (s != [] && t != [] && LowerChar(s[0]) != LowerChar(t[0]))
  }

  /** The screen's filter state. */
  class Browser {
    var selectedTrip: string
    var searchQuery: string

    constructor ()
      ensures selectedTrip == "" && searchQuery == ""
      ensures Results() == AllDestinations
    {
      selectedTrip := "";
      searchQuery := "";
      new;
      FilteredIdentity(AllDestinations, "");
    }

    /** What the filtering effect stores in `filteredDestinations`. */
    function Results(): (r: seq<Destination>)
      reads this
      ensures |r| <= |AllDestinations| && IsSubseq(r, AllDestinations)
      ensures forall d :: d in r ==> Passes(d, selectedTrip, searchQuery)
    {
      FilteredKeepsExactlyPassing(AllDestinations, selectedTrip, searchQuery);
      Filtered(AllDestinations, selectedTrip, searchQuery)
    }

    /** Typing in the search bar. */
    method EditQuery(text: string)
      modifies this
      ensures searchQuery == text && selectedTrip == old(selectedTrip)
    {
      searchQuery := text;
    }

    /** Tapping a recent trip: tapping the selected one deselects it, any other
        selects it; the search text is cleared either way. */
    method SelectTrip(tripName: string)
      modifies this
      ensures selectedTrip == (if old(selectedTrip) == tripName then "" else tripName)
      ensures searchQuery == ""
      ensures Results() == if selectedTrip == "" then AllDestinations
                           else Filter(AllDestinations, (d: Destination) => MatchesTrip(d, tripName))
    {
      selectedTrip := if selectedTrip == tripName then "" else tripName;
      searchQuery := "";
      FilteredIdentity(AllDestinations, "");
    }

    /** The clear button: both filters emptied, so the full list shows again. */
    method ClearAll()
      modifies this
      ensures selectedTrip == "" && searchQuery == ""
      ensures Results() == AllDestinations
    {
      searchQuery := "";
      selectedTrip := "";
      FilteredIdentity(AllDestinations, "");
    }
  }
}
