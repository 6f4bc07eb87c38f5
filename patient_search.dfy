/** The patient search shared by both hospital screens: a patient matches a
    query when the lower-cased name or the lower-cased email includes the
    lower-cased query, or the contact number includes the query verbatim. */
module PatientSearch {
  import opened Records
  import opened Text
  import opened Seqs
  import opened PatientList

  /** The three-field match rule of the search box. */
  predicate Matches(p: Patient, query: string)
    ensures Matches(p, query) ==>
      |query| <= |p.name| || |query| <= |p.email| || |query| <= |p.contactNumber|
  {
    Includes(Lower(p.name), Lower(query)) ||
    Includes(Lower(p.email), Lower(query)) ||
    Includes(p.contactNumber, query)
  }

  /** The rule stated through occurrences instead of the left-to-right scan:
      name and email are compared after lower-casing both sides, the contact
      number is compared as written. */
  lemma MatchesIffOccurs(p: Patient, query: string)
    ensures Matches(p, query) <==>
      (exists i :: OccursAt(Lower(p.name), Lower(query), i)) ||
      (exists i :: OccursAt(Lower(p.email), Lower(query), i)) ||
      (exists i :: OccursAt(p.contactNumber, query, i))
  {
    IncludesIffOccurs(Lower(p.name), Lower(query));
    IncludesIffOccurs(Lower(p.email), Lower(query));
    IncludesIffOccurs(p.contactNumber, query);
  }

  /** Every patient matches the empty query. */
  lemma MatchesEmptyQuery(p: Patient)
    ensures Matches(p, "")
  {
    assert Lower("") == "";
    IncludesEmpty(Lower(p.name));
  }

  /** `list.filter(patient => ...)` with the match rule. */
  function Search(list: seq<Patient>, query: string): (r: seq<Patient>)
    ensures |r| <= |list|
    ensures forall p :: p in r <==> p in list && Matches(p, query)
  {
    Filter(list, p => Matches(p, query))
  }

  /** The result keeps the list's order: it is a subsequence of the list. */
  lemma SearchIsSubsequence(list: seq<Patient>, query: string)
    ensures IsSubsequence(Search(list, query), list)
  {
    FilterIsSubsequence(list, p => Matches(p, query));
  }

  /** The search decides patient by patient: searching a concatenation is
      concatenating the searches. With the one-patient case below this says
      the result is exactly the matching patients, in list order. */
  lemma SearchConcat(a: seq<Patient>, b: seq<Patient>, query: string)
    ensures Search(a + b, query) == Search(a, query) + Search(b, query)
  {
    FilterConcat(a, b, p => Matches(p, query));
  }

  /** One patient is kept exactly when it matches. */
  lemma SearchSingle(p: Patient, query: string)
    ensures Search([p], query) == if Matches(p, query) then [p] else []
  {
    FilterSingle(p, q => Matches(q, query));
  }

  /** An empty query keeps the whole list, in order. */
  lemma SearchEmptyQuery(list: seq<Patient>)
    ensures Search(list, "") == list
  {
    forall i | 0 <= i < |list| ensures Matches(list[i], "") {
      MatchesEmptyQuery(list[i]);
    }
    FilterKeepsAll(list, p => Matches(p, ""));
  }

  /** Searching a list whose ids are distinct gives a list whose ids are distinct. */
  lemma SearchKeepsUniqueIds(list: seq<Patient>, query: string)
    requires UniqueIds(list)
    ensures UniqueIds(Search(list, query))
  {
    FilterKeepsUniqueIds(list, p => Matches(p, query));
  }

  /** A worked example: "john" finds the patient by name, "555" by contact
      number, and "zzz" finds nothing. */
  lemma SearchExample()
    ensures var p := Patient("p1", "John Doe", Num(40), "Male", "O+", "555-1111",
                             "john@x.com", "", [], [], "2024-01-01");
      && Search([p], "john") == [p]
      && Search([p], "555") == [p]
      && Search([p], "zzz") == []
  {
    var p := Patient("p1", "John Doe", Num(40), "Male", "O+", "555-1111",
                     "john@x.com", "", [], [], "2024-01-01");
    var name, email := Lower(p.name), Lower(p.email);
    assert name[..4] == "john" == Lower("john");
    assert Matches(p, "john");
    assert p.contactNumber[..3] == "555";
    assert Matches(p, "555");
    assert Lower("zzz") == "zzz";
    assert 'z' !in name && 'z' !in email && 'z' !in p.contactNumber;
    IncludesNeedsFirstChar(name, "zzz");
    IncludesNeedsFirstChar(email, "zzz");
    IncludesNeedsFirstChar(p.contactNumber, "zzz");
    SearchSingle(p, "john");
    SearchSingle(p, "555");
    SearchSingle(p, "zzz");
  }
}
