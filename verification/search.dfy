/** The search step: the CPF box, the search gate, and the filter over the report list. The report
    list (a fixture in the application) is a parameter, and the simulated network delay is not
    modelled: a search settles in the same step it starts. */
module Search {
  import opened Seqs
  import opened ReportTypes
  import opened Cpf

  /** The search view's own state: the masked key, the last results, whether a search ran. */
  datatype SearchState = SearchState(cpfSearch: string, results: seq<Report>, hasSearched: bool)

  function InitialSearch(): SearchState {
    SearchState("", [], false)
  }

  /** `handleCpfChange`: the box holds the masked input whenever the mask fits in 14 characters. */
  function HandleCpfChange(st: SearchState, input: string): (r: SearchState)
    ensures r == st.(cpfSearch := FormatCpf(input))
  {
    var formatted := FormatCpf(input);
    FormatCpfAtMost14(input);
    if |formatted| <= 14 then st.(cpfSearch := formatted) else st
  }

  /** `needle` occurs in `hay` starting at position `i`. */
  predicate OccursAt(hay: string, needle: string, i: int) {
    0 <= i && i + |needle| <= |hay| && hay[i..i + |needle|] == needle
  }

  /** `hay.includes(needle)`. */
  function Includes(hay: string, needle: string): (r: bool)
    ensures r ==> |needle| <= |hay|
    ensures |needle| <= |hay| && hay[..|needle|] == needle ==> r
    decreases |hay|
  {
    if |needle| > |hay| then false
    else if hay[..|needle|] == needle then true
    else Includes(hay[1..], needle)
  }

  /** `includes` is substring containment, anywhere in the string. */
  lemma {:induction false} IncludesIff(hay: string, needle: string)
    ensures Includes(hay, needle) <==> exists i :: OccursAt(hay, needle, i)
    decreases |hay|
  {
    if |needle| > |hay| {
    } else if hay[..|needle|] == needle {
      assert OccursAt(hay, needle, 0);
    } else {
      IncludesIff(hay[1..], needle);
      if Includes(hay[1..], needle) {
        var i :| OccursAt(hay[1..], needle, i);
        assert hay[1..][i..i + |needle|] == hay[i + 1..i + 1 + |needle|];
        assert OccursAt(hay, needle, i + 1);
      }
      if exists i :: OccursAt(hay, needle, i) {
        var i :| OccursAt(hay, needle, i);
        assert i != 0;
        assert hay[1..][i - 1..i - 1 + |needle|] == hay[i..i + |needle|];
        assert OccursAt(hay[1..], needle, i - 1);
      }
    }
  }

  lemma IncludesEverywhere(key: string)
    ensures forall rep: Report :: Includes(rep.patient.cpf, key) <==> exists i :: OccursAt(rep.patient.cpf, key, i)
  {
    forall rep: Report
      ensures Includes(rep.patient.cpf, key) <==> exists i :: OccursAt(rep.patient.cpf, key, i)
    {
      IncludesIff(rep.patient.cpf, key);
    }
  }

  /** The lookup key: `cpfSearch.replace(/\D/g, '').slice(0, 3)`. */
  function SearchKey(cpfSearch: string): (r: string)
    ensures AllDigits(r) && |r| == Min(3, |Digits(cpfSearch)|)
    ensures r <= Digits(cpfSearch)
  {
    var d := Digits(cpfSearch);
    d[..Min(3, |d|)]
  }

  /** The predicate of the filter over the report list: the patient CPF contains the key. */
  function Matches(key: string): Report -> bool {
    (r: Report) => Includes(r.patient.cpf, key)
  }

  /** A report passes the filter exactly when the key occurs somewhere in its patient's CPF. */
  lemma MatchesIff(key: string)
    ensures forall rep :: Matches(key)(rep) <==> exists i :: OccursAt(rep.patient.cpf, key, i)
  {
    IncludesEverywhere(key);
  }

  /** `handleSearch`: nothing happens while the box holds fewer than 11 characters; otherwise the
      results become the reports, in list order, whose patient CPF contains the key. */
  function HandleSearch(st: SearchState, reports: seq<Report>): (r: SearchState)
    ensures |st.cpfSearch| < 11 ==> r == st
    ensures |st.cpfSearch| >= 11 ==>
              && r.cpfSearch == st.cpfSearch
              && r.hasSearched
              && r.results == Filter(reports, Matches(SearchKey(st.cpfSearch)))
              && forall rep :: rep in r.results <==>
                   rep in reports && exists i :: OccursAt(rep.patient.cpf, SearchKey(st.cpfSearch), i)
  {
    if |st.cpfSearch| < 11 then st
    else
      var results := Filter(reports, Matches(SearchKey(st.cpfSearch)));
      assert forall rep :: rep in results <==> rep in reports && Includes(rep.patient.cpf, SearchKey(st.cpfSearch));
      IncludesEverywhere(SearchKey(st.cpfSearch));
      st.(hasSearched := true, results := results)
  }

  /** The search button is disabled while the box holds fewer than 11 characters. */
  predicate SearchDisabled(st: SearchState) {
    |st.cpfSearch| < 11
  }

  /** With a masked key the gate means at least 9 digits, not 11: searching with fewer than 9
      digits typed changes nothing (no results, `hasSearched` stays as it was), and from 9 digits
      on the search runs with the first three digits as key. */
  lemma SearchGateNineDigits(st: SearchState, input: string, reports: seq<Report>)
    ensures var typed := HandleCpfChange(st, input);
      && (|Digits(input)| < 9 <==> SearchDisabled(typed))
      && (|Digits(input)| < 9 ==> HandleSearch(typed, reports) == typed)
      && (|Digits(input)| >= 9 ==> HandleSearch(typed, reports).hasSearched
                                   && SearchKey(typed.cpfSearch) == Digits(input)[..3])
  {
    FormatCpfLongEnough(input);
    FormatCpfDigits(input);
    var d := Digits(input);
    var f := FormatCpf(input);
    if |d| >= 9 {
      assert Digits(f)[..3] == d[..Min(11, |d|)][..3] == d[..3];
    }
  }

  /** Results keep the order of the report list: searching a list made of two parts gives the
      results of the first part followed by those of the second. */
  lemma SearchKeepsOrder(st: SearchState, a: seq<Report>, b: seq<Report>)
    requires !SearchDisabled(st)
    ensures HandleSearch(st, a + b).results == HandleSearch(st, a).results + HandleSearch(st, b).results
  {
    FilterAppend(a, b, Matches(SearchKey(st.cpfSearch)));
  }

  /** Matching is containment, not prefix: a CPF whose first three digits differ from the key still
      matches when the key occurs later in it. */
  lemma SearchMatchesInside()
    ensures Includes("987.123.654-00", "123")
    ensures "987.123.654-00"[..3] != "123"
  {
    assert "987.123.654-00"[..3][0] == '9';
    assert "987.123.654-00"[4..7] == "123";
    IncludesIff("987.123.654-00", "123");
    assert OccursAt("987.123.654-00", "123", 4);
  }

  /** A search with the punctuated CPF 123.456.789-09 looks for its first three digits. */
  lemma ElevenDigitKey()
    ensures SearchKey("123.456.789-09") == "123"
  {
    var f := FormatCpf("12345678909");
    ElevenDigitMask();
    ElevenDigitDigits(f);
    KeyOfElevenDigits(f);
  }

  lemma KeyOfElevenDigits(f: string)
    requires Digits(f) == "12345678909"
    ensures SearchKey(f) == "123"
  {
    var d := Digits(f);
    assert d[..3] == "123";
  }

  /** Searching with the punctuated CPF 123.456.789-09 finds a report whose CPF is typed as its
      eleven bare digits. */
  lemma SearchElevenDigits(r: Report)
    requires r.patient.cpf == "12345678909"
    ensures HandleSearch(SearchState("123.456.789-09", [], false), [r]) == SearchState("123.456.789-09", [r], true)
  {
    ElevenDigitKey();
    BareDigitsIncludeKey(r.patient.cpf);
    SearchSingle(SearchState("123.456.789-09", [], false), r, "123");
  }

  lemma BareDigitsIncludeKey(cpf: string)
    requires cpf == "12345678909"
    ensures Includes(cpf, "123")
  {
    assert OccursAt(cpf, "123", 0);
    IncludesIff(cpf, "123");
  }

  lemma SearchSingle(st: SearchState, r: Report, key: string)
    requires |st.cpfSearch| >= 11 && SearchKey(st.cpfSearch) == key
    requires Includes(r.patient.cpf, key)
    ensures HandleSearch(st, [r]) == st.(results := [r], hasSearched := true)
  {
    assert Filter([r], Matches(key)) == [r];
  }
}
