/**
 * The data side of the visitor history screen (src/screens/HistoryScreen.tsx):
 * the local search over the most recent records, the purpose and source label
 * lookups on each card, and the choice between the empty view, the
 * no-results notice and the list, with its count line.
 */
module HistoryScreen {
  import opened Types
  import opened Text
  import VisitPurposes
  import Sources
  import VisitorStore

  /** How many of the newest records the screen fetches to search in. */
  const SearchWindow := 100
  /** How many records a blank query shows. */
  const BlankQueryPage := 20

  // ---------------------------------------------------------------- labels

  /** `table.find(entry => entry.value === value)`, as the index of the first match. */
  function FindByValue(table: seq<Choice>, value: string): (r: Option<nat>)
    ensures r.None? <==> forall i :: 0 <= i < |table| ==> table[i].value != value
    ensures r.Some? ==> r.value < |table| && table[r.value].value == value
    ensures r.Some? ==> forall j :: 0 <= j < r.value ==> table[j].value != value
  {
    if table == [] then None
    else if table[0].value == value then Some(0)
    else match FindByValue(table[1..], value)
      case None => None
      case Some(k) => Some(k + 1)
  }

  /** `found?.label || value`: the entry's label, unless there is none or it is empty. */
  function LabelOrValue(table: seq<Choice>, value: string): (r: string)
    ensures (forall i :: 0 <= i < |table| ==> table[i].value != value) ==> r == value
    ensures r == value || exists i :: 0 <= i < |table| && table[i].value == value && table[i].caption == r
  {
    match FindByValue(table, value)
    case Some(i) => if table[i].caption != "" then table[i].caption else value
    case None => value
  }

  /** `getPurposeLabel`. */
  function PurposeLabel(value: string): (r: string)
    ensures !VisitPurposes.IsPurposeValue(value) ==> r == value
    ensures var t := VisitPurposes.VisitPurposeTable;
      r == value || exists i :: 0 <= i < |t| && t[i].value == value && t[i].caption == r
  {
    LabelOrValue(VisitPurposes.VisitPurposeTable, value)
  }

  /** `getSourceLabel`. */
  function SourceLabel(value: string): (r: string)
    ensures !Sources.IsSourceValue(value) ==> r == value
    ensures var t := Sources.SourceTable;
      r == value || exists i :: 0 <= i < |t| && t[i].value == value && t[i].caption == r
  {
    LabelOrValue(Sources.SourceTable, value)
  }

  /** In a table whose values are distinct, looking up an entry's value gives that entry's label. */
  lemma LabelOfListedValue(table: seq<Choice>, i: nat)
    requires i < |table| && table[i].caption != ""
    requires forall j, k :: 0 <= j < k < |table| ==> table[j].value != table[k].value
    ensures LabelOrValue(table, table[i].value) == table[i].caption
  {
    var r := FindByValue(table, table[i].value);
    assert r.Some?;
    assert r.value == i;
  }

  /** A value that no entry has is shown as it is. */
  lemma LabelOfUnlistedValue(table: seq<Choice>, value: string)
    requires forall j :: 0 <= j < |table| ==> table[j].value != value
    ensures LabelOrValue(table, value) == value
  {
  }

  /** Each purpose value is shown as its label; any other value is shown raw. */
  lemma PurposeLabels(value: string)
    ensures forall i :: 0 <= i < |VisitPurposes.VisitPurposeTable| ==>
      PurposeLabel(VisitPurposes.VisitPurposeTable[i].value) == VisitPurposes.VisitPurposeTable[i].caption
    ensures !VisitPurposes.IsPurposeValue(value) ==> PurposeLabel(value) == value
  {
    var table := VisitPurposes.VisitPurposeTable;
    VisitPurposes.PurposeValuesDistinct();
    forall i | 0 <= i < |table| ensures PurposeLabel(table[i].value) == table[i].caption {
      LabelOfListedValue(table, i);
    }
  }

  /** Each source value is shown as its label; any other value is shown raw. */
  lemma SourceLabels(value: string)
    ensures forall i :: 0 <= i < |Sources.SourceTable| ==>
      SourceLabel(Sources.SourceTable[i].value) == Sources.SourceTable[i].caption
    ensures !Sources.IsSourceValue(value) ==> SourceLabel(value) == value
  {
    var table := Sources.SourceTable;
    Sources.SourceEntriesDistinct();
    forall i | 0 <= i < |table| ensures SourceLabel(table[i].value) == table[i].caption {
      LabelOfListedValue(table, i);
    }
  }

  // ---------------------------------------------------------------- search

  /** The record test of the search: name, non-empty e-mail or phone contains the query. */
  predicate Matches(v: Visitor, query: string)
    ensures query == "" ==> Matches(v, query)
    ensures Matches(v, query) ==>
      |query| <= |v.name| || |query| <= |v.phone| || (v.email.Some? && |query| <= |v.email.value|)
  {
    || Includes(Lower(v.name), query)
    || (v.email.Some? && v.email.value != "" && Includes(Lower(v.email.value), query))
    || Includes(Lower(v.phone), query)
  }

  /** `a` is `b` with some elements left out, the rest in their original order. */
  predicate IsSubsequence(a: seq<Visitor>, b: seq<Visitor>)
  {
    if a == [] then true
    else if b == [] then false
    else if a[0] == b[0] then IsSubsequence(a[1..], b[1..])
    else IsSubsequence(a, b[1..])
  }

  /** `all.filter(visitor => Matches(visitor, query))`. */
  function KeepMatching(all: seq<Visitor>, query: string): (r: seq<Visitor>)
    ensures |r| <= |all|
    ensures IsSubsequence(r, all)
    ensures forall v :: v in r <==> v in all && Matches(v, query)
    ensures forall v :: multiset(r)[v] == if Matches(v, query) then multiset(all)[v] else 0
  {
    if all == [] then []
    else
      assert all == [all[0]] + all[1..];
      if Matches(all[0], query) then [all[0]] + KeepMatching(all[1..], query)
      else
        var rest := KeepMatching(all[1..], query);
        assert rest == [] || rest[0] != all[0];
        rest
  }

  /** The search text as the filter uses it: `searchQuery.toLowerCase().trim()`. */
  function NormalizedQuery(searchQuery: string): string
  {
    Trim(Lower(searchQuery))
  }

  /** `filteredVisitors` over the fetched list `all`. */
  function FilterVisitors(all: seq<Visitor>, searchQuery: string): (r: seq<Visitor>)
    ensures |r| <= |all|
    ensures Trim(searchQuery) == "" ==>
      r <= all && |r| == if |all| < BlankQueryPage then |all| else BlankQueryPage
    ensures Trim(searchQuery) != "" ==>
      forall v :: multiset(r)[v] == if Matches(v, NormalizedQuery(searchQuery)) then multiset(all)[v] else 0
  {
    if Trim(searchQuery) == "" then SliceTo(all, BlankQueryPage)
    else KeepMatching(all, NormalizedQuery(searchQuery))
  }

  /** What the screen lists for a store holding `stored`: it searches `getRecentVisitors(100)`. */
  function SearchResults(stored: seq<Visitor>, searchQuery: string): (r: seq<Visitor>)
    ensures |r| <= SearchWindow && |r| <= |stored|
    ensures forall v :: v in r ==> v in stored
  {
    FilterVisitors(VisitorStore.Recent(stored, Some(SearchWindow)), searchQuery)
  }

  /** The declarative reading of `Matches`: substring occurrence in the lower-cased fields. */
  lemma MatchesMeaning(v: Visitor, query: string)
    ensures Matches(v, query) <==>
      || OccursIn(query, Lower(v.name))
      || (v.email.Some? && v.email.value != "" && OccursIn(query, Lower(v.email.value)))
      || OccursIn(query, Lower(v.phone))
  {
    IncludesIff(Lower(v.name), query);
    if v.email.Some? {
      IncludesIff(Lower(v.email.value), query);
    }
    IncludesIff(Lower(v.phone), query);
  }

  /** Records older than the hundred newest never influence the search. */
  lemma SearchIgnoresOlderRecords(stored: seq<Visitor>, older: seq<Visitor>, searchQuery: string)
    requires |stored| >= SearchWindow
    ensures SearchResults(stored + older, searchQuery) == SearchResults(stored, searchQuery)
  {
    var a := VisitorStore.Recent(stored + older, Some(SearchWindow));
    var b := VisitorStore.Recent(stored, Some(SearchWindow));
    assert a == (stored + older)[..SearchWindow];
    assert b == stored[..SearchWindow];
    assert (stored + older)[..SearchWindow] == stored[..SearchWindow];
  }

  /** Everything listed is one of the hundred newest records. */
  lemma SearchResultsFromWindow(stored: seq<Visitor>, searchQuery: string)
    ensures forall v :: v in SearchResults(stored, searchQuery) ==> v in VisitorStore.Recent(stored, Some(SearchWindow))
  {
  }

  /** A query that trims to nothing lists the first twenty fetched records. */
  lemma BlankQueryFetchedPage(stored: seq<Visitor>, searchQuery: string)
    requires Trim(searchQuery) == []
    ensures SearchResults(stored, searchQuery) == SliceTo(VisitorStore.Recent(stored, Some(SearchWindow)), BlankQueryPage)
  {
  }

  /** The first twenty of the hundred newest records are the first twenty records. */
  lemma FirstTwentyOfWindow(stored: seq<Visitor>)
    ensures SliceTo(VisitorStore.Recent(stored, Some(SearchWindow)), BlankQueryPage)
      == stored[..if |stored| < BlankQueryPage then |stored| else BlankQueryPage]
  {
    var all := VisitorStore.Recent(stored, Some(SearchWindow));
    var page := SliceTo(all, BlankQueryPage);
    var n := if |stored| < BlankQueryPage then |stored| else BlankQueryPage;
    assert |page| == n;
    forall i | 0 <= i < n ensures page[i] == stored[i] {
      assert page[i] == all[i];
    }
  }

  /** A blank or whitespace-only query lists the first twenty records, unfiltered. */
  lemma BlankQueryListsFirstTwenty(stored: seq<Visitor>, searchQuery: string)
    requires AllWhitespace(searchQuery)
    ensures SearchResults(stored, searchQuery) == stored[..if |stored| < BlankQueryPage then |stored| else BlankQueryPage]
  {
    TrimEmptyIff(searchQuery);
    BlankQueryFetchedPage(stored, searchQuery);
    FirstTwentyOfWindow(stored);
  }

  /**
   * Any other query keeps, in their original order, exactly the fetched records
   * whose lower-cased name, e-mail or phone contains the normalized query.
   */
  lemma QueryKeepsExactlyMatches(stored: seq<Visitor>, searchQuery: string)
    requires !AllWhitespace(searchQuery)
    ensures var all := VisitorStore.Recent(stored, Some(SearchWindow));
      var r := SearchResults(stored, searchQuery);
      && IsSubsequence(r, all)
      && |r| <= |all|
      && (forall v :: v in r <==> v in all && Matches(v, NormalizedQuery(searchQuery)))
      && forall v :: multiset(r)[v] == if Matches(v, NormalizedQuery(searchQuery)) then multiset(all)[v] else 0
  {
    TrimEmptyIff(searchQuery);
  }

  /** Queries that differ only in letter case list the same records. */
  lemma SearchIgnoresCase(all: seq<Visitor>, q1: string, q2: string)
    requires Lower(q1) == Lower(q2)
    ensures FilterVisitors(all, q1) == FilterVisitors(all, q2)
  {
    TrimLowerEmptyIff(q1);
    TrimLowerEmptyIff(q2);
  }

  /** Whitespace around a query does not change what it lists. */
  lemma SearchIgnoresSurroundingWhitespace(all: seq<Visitor>, w1: string, q: string, w2: string)
    requires AllWhitespace(w1) && AllWhitespace(w2)
    ensures FilterVisitors(all, w1 + q + w2) == FilterVisitors(all, q)
  {
    TrimPadding(w1, q, w2);
    assert Lower(w1 + q + w2) == Lower(w1) + Lower(q) + Lower(w2);
    forall i | 0 <= i < |w1| ensures IsWhitespace(Lower(w1)[i]) {
      LowerKeepsWhitespace(w1[i]);
    }
    forall i | 0 <= i < |w2| ensures IsWhitespace(Lower(w2)[i]) {
      LowerKeepsWhitespace(w2[i]);
    }
    TrimPadding(Lower(w1), Lower(q), Lower(w2));
  }

  /** When no record matches, the filter keeps nothing. */
  lemma {:induction false} NoMatchKeepsNothing(all: seq<Visitor>, query: string)
    requires forall j :: 0 <= j < |all| ==> !Matches(all[j], query)
    ensures KeepMatching(all, query) == []
  {
    if all != [] {
      forall j | 0 <= j < |all[1..]| ensures !Matches(all[1..][j], query) {
        assert all[1..][j] == all[j + 1];
      }
      NoMatchKeepsNothing(all[1..], query);
    }
  }

  /** When exactly one record matches, the filter keeps exactly that record. */
  lemma {:induction false} KeepMatchingSingle(all: seq<Visitor>, query: string, k: nat)
    requires k < |all| && Matches(all[k], query)
    requires forall j :: 0 <= j < |all| && j != k ==> !Matches(all[j], query)
    ensures KeepMatching(all, query) == [all[k]]
  {
    var rest := KeepMatching(all[1..], query);
    if k == 0 {
      forall j | 0 <= j < |all[1..]| ensures !Matches(all[1..][j], query) {
        assert all[1..][j] == all[j + 1];
      }
      NoMatchKeepsNothing(all[1..], query);
    } else {
      forall j | 0 <= j < |all[1..]| && j != k - 1 ensures !Matches(all[1..][j], query) {
        assert all[1..][j] == all[j + 1];
      }
      KeepMatchingSingle(all[1..], query, k - 1);
    }
  }

  /** A record none of whose searched fields holds character `query[i]` (not a letter) is not a match. */
  lemma MissesByChar(v: Visitor, query: string, i: nat)
    requires i < |query| && !('a' <= query[i] <= 'z') && !('A' <= query[i] <= 'Z')
    requires query[i] !in v.name && query[i] !in v.phone
    requires v.email.Some? ==> query[i] !in v.email.value
    ensures !Matches(v, query)
  {
    LowerOmits(v.name, query[i]);
    MissingCharNotIncluded(Lower(v.name), query, i);
    LowerOmits(v.phone, query[i]);
    MissingCharNotIncluded(Lower(v.phone), query, i);
    if v.email.Some? {
      LowerOmits(v.email.value, query[i]);
      MissingCharNotIncluded(Lower(v.email.value), query, i);
    }
  }

  /** "+1-555-0321" holds every character of "555-0123" but not the text itself. */
  lemma ShuffledPhoneMisses(phone: string, q: string)
    requires phone == "+1-555-0321" && q == "555-0123"
    ensures !Includes(Lower(phone), q)
  {
    assert Lower(phone) == phone;
    forall i | 0 <= i < 4 ensures !(q <= phone[i..]) {
      if i < 3 {
        assert phone[i..][0] != q[0];
      } else {
        assert phone[i..][5] != q[5];
      }
    }
    IncludesSkip(phone, q, 4);
    ShorterNotIncluded(phone[4..], q);
  }

  /*
   * The per-record lemmas below take the record and the query as parameters pinned
   * by their preconditions, rather than naming the constants in their ensures: this
   * keeps the long string literals out of the solver's context until the one lemma
   * that needs them, which keeps each proof small.
   */

  /** Emily Davis's record does not match "555-0123", although her phone holds all its characters. */
  lemma EmilyDavisMisses(v: Visitor, q: string)
    requires v == VisitorStore.EmilyDavis && q == "555-0123"
    ensures !Matches(v, q)
  {
    LowerOmits(v.name, '5');
    MissingCharNotIncluded(Lower(v.name), q, 0);
    LowerOmits(v.email.value, '5');
    MissingCharNotIncluded(Lower(v.email.value), q, 0);
    ShuffledPhoneMisses(v.phone, q);
  }

  /** John Smith's phone, "+1-555-0123", contains "555-0123" from its fourth character on. */
  lemma PhoneContainsQuery(phone: string, q: string)
    requires phone == "+1-555-0123" && q == "555-0123"
    ensures Includes(Lower(phone), q)
  {
    assert Lower(phone) == phone;
    forall i | 0 <= i < 3 ensures !(q <= phone[i..]) {
      assert phone[i..][0] != q[0];
    }
    IncludesSkip(phone, q, 3);
    assert phone[3..] == q;
  }

  /** Sarah Johnson's record has no '2' in its name, e-mail or phone, so it misses "555-0123". */
  lemma SarahJohnsonMisses(v: Visitor, q: string)
    requires v == VisitorStore.SarahJohnson && q == "555-0123"
    ensures !Matches(v, q)
  {
    MissesByChar(v, q, 6);
  }

  /** Mike Chen's record has no '2' in its name, e-mail or phone, so it misses "555-0123". */
  lemma MikeChenMisses(v: Visitor, q: string)
    requires v == VisitorStore.MikeChen && q == "555-0123"
    ensures !Matches(v, q)
  {
    MissesByChar(v, q, 6);
  }

  /** Robert Wilson's record has no '2' in its name, e-mail or phone, so it misses "555-0123". */
  lemma RobertWilsonMisses(v: Visitor, q: string)
    requires v == VisitorStore.RobertWilson && q == "555-0123"
    ensures !Matches(v, q)
  {
    MissesByChar(v, q, 6);
  }

  /** Of five records, when only the first matches, the filter keeps the first alone. */
  lemma OnlyFirstOfFiveMatches(a: Visitor, b: Visitor, c: Visitor, d: Visitor, e: Visitor, q: string)
    requires Matches(a, q) && !Matches(b, q) && !Matches(c, q) && !Matches(d, q) && !Matches(e, q)
    ensures KeepMatching([a, b, c, d, e], q) == [a]
  {
    KeepMatchingSingle([a, b, c, d, e], q, 0);
  }

  /** Of the seed records, only John Smith's lower-cased fields contain "555-0123". */
  lemma SeedPhoneMatches(q: string)
    requires q == "555-0123"
    ensures KeepMatching(VisitorStore.Seed, q) == [VisitorStore.JohnSmith]
  {
    PhoneContainsQuery(VisitorStore.JohnSmith.phone, q);
    SarahJohnsonMisses(VisitorStore.SarahJohnson, q);
    MikeChenMisses(VisitorStore.MikeChen, q);
    EmilyDavisMisses(VisitorStore.EmilyDavis, q);
    RobertWilsonMisses(VisitorStore.RobertWilson, q);
    OnlyFirstOfFiveMatches(VisitorStore.JohnSmith, VisitorStore.SarahJohnson, VisitorStore.MikeChen,
      VisitorStore.EmilyDavis, VisitorStore.RobertWilson, q);
  }

  /** A lower-case query with no whitespace at its ends is searched for as it is. */
  lemma PlainQuerySearch(stored: seq<Visitor>, q: string)
    requires q != [] && !IsWhitespace(q[0]) && !IsWhitespace(q[|q| - 1]) && Lower(q) == q
    ensures SearchResults(stored, q) == KeepMatching(VisitorStore.Recent(stored, Some(SearchWindow)), q)
  {
    TrimUntouched(q);
  }

  /**
   * Searching the seed records for "555-0123" lists John Smith alone, matched on his
   * phone number "+1-555-0123".
   */
  lemma SeedPhoneSearch(q: string)
    requires q == "555-0123"
    ensures SearchResults(VisitorStore.Seed, q) == [VisitorStore.JohnSmith]
  {
    assert Lower(q) == q;
    PlainQuerySearch(VisitorStore.Seed, q);
    assert VisitorStore.Recent(VisitorStore.Seed, Some(SearchWindow)) == VisitorStore.Seed;
    SeedPhoneMatches(q);
  }

  // ---------------------------------------------------------------- view

  datatype ListArea = NoResults | Cards(items: seq<Visitor>)

  /** The three shapes of the screen: the empty-history notice, or a header line over a list area. */
  datatype HistoryView = EmptyHistory | Listing(subtitle: string, list: ListArea)

  /** The header line: a result count while there is query text, the total otherwise. */
  function Subtitle(searchQuery: string, found: nat, total: nat): (r: string)
    ensures var count := Decimal(if searchQuery != "" then found else total);
      count <= r && |r| > |count| && r[|count|] == ' '
  {
    if searchQuery != "" then Decimal(found) + ResultWords(found)
    else Decimal(total) + EntryWords(total)
  }

  /** The words after the result count: " result" or " results", then " found". */
  function ResultWords(found: nat): string
  {
    if found == 1 then " result found" else " results found"
  }

  /** The words after the total: " total entry" or " total entries". */
  function EntryWords(total: nat): string
  {
    if total == 1 then " total entry" else " total entries"
  }

  predicate EndsWith(s: string, suffix: string)
  {
    |suffix| <= |s| && s[|s| - |suffix|..] == suffix
  }

  /** The last `k` characters of `p + t` are the last `k` of `t`. */
  lemma SuffixOfConcat(p: string, t: string, k: nat)
    requires k <= |t|
    ensures (p + t)[|p + t| - k..] == t[|t| - k..]
  {
  }

  /** With query text, the header ends in " result found" exactly when one record was found. */
  lemma ResultLineSingularIff(searchQuery: string, found: nat, total: nat)
    requires searchQuery != ""
    ensures EndsWith(Subtitle(searchQuery, found, total), " result found") <==> found == 1
  {
    var tail := ResultWords(found);
    SuffixOfConcat(Decimal(found), tail, 13);
    if found != 1 {
      assert tail[|tail| - 13] == 'r';
    }
  }

  /** Without query text, the header ends in " entry" exactly when the total is one. */
  lemma EntryLineSingularIff(found: nat, total: nat)
    ensures EndsWith(Subtitle("", found, total), " entry") <==> total == 1
  {
    var tail := EntryWords(total);
    SuffixOfConcat(Decimal(total), tail, 6);
    if total != 1 {
      assert tail[|tail| - 6] == 'n';
    }
  }

  /** The header line is in the singular exactly when its count is one. */
  lemma SubtitleSingularIff(searchQuery: string, found: nat, total: nat)
    ensures searchQuery != "" ==> (EndsWith(Subtitle(searchQuery, found, total), " result found") <==> found == 1)
    ensures searchQuery == "" ==> (EndsWith(Subtitle(searchQuery, found, total), " entry") <==> total == 1)
  {
    if searchQuery != "" {
      ResultLineSingularIff(searchQuery, found, total);
    } else {
      EntryLineSingularIff(found, total);
    }
  }

  /** What the screen shows for a store holding `stored` and the current search text. */
  function Render(stored: seq<Visitor>, searchQuery: string): (view: HistoryView)
    ensures view.EmptyHistory? <==> stored == []
    ensures view.Listing? ==>
      var found := SearchResults(stored, searchQuery);
      view.list == if found == [] && searchQuery != "" then NoResults else Cards(found)
    ensures view.Listing? ==>
      view.subtitle == Subtitle(searchQuery, |SearchResults(stored, searchQuery)|,
        |VisitorStore.Recent(stored, Some(SearchWindow))|)
  {
    var all := VisitorStore.Recent(stored, Some(SearchWindow));
    if |all| == 0 then EmptyHistory
    else
      var found := FilterVisitors(all, searchQuery);
      Listing(
        Subtitle(searchQuery, |found|, |all|),
        if |found| == 0 && searchQuery != "" then NoResults else Cards(found))
  }

  /** Without query text the header counts the fetched records, which never exceed one hundred. */
  lemma TotalCountCapped(stored: seq<Visitor>)
    requires stored != []
    ensures var n := if |stored| < SearchWindow then |stored| else SearchWindow;
      Render(stored, "") == Listing(Subtitle("", 0, n), Cards(stored[..if n < BlankQueryPage then n else BlankQueryPage]))
  {
    BlankQueryListsFirstTwenty(stored, "");
  }

  /**
   * A query of blanks only is not searched for, yet the header treats it as a search: it
   * reports the unfiltered first twenty records as results found.
   */
  lemma BlankQueryReportedAsResults(stored: seq<Visitor>, searchQuery: string)
    requires stored != [] && searchQuery != "" && AllWhitespace(searchQuery)
    ensures var page := stored[..if |stored| < BlankQueryPage then |stored| else BlankQueryPage];
      Render(stored, searchQuery) == Listing(Subtitle(searchQuery, |page|, 0), Cards(page))
  {
    BlankQueryListsFirstTwenty(stored, searchQuery);
  }
}
