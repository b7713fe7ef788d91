/**
 * Configuration constants the core depends on and the keyword-to-country
 * lookup over the country table (src/config.ts).
 */
module Config {
  import opened Wrappers
  import opened Strings

  // Image normalisation settings.
  const MaxWidth: nat := 500
  const MaxHeight: nat := 500
  const MaxFileSize: nat := 50 * 1024
  const JpegQualityMin: int := 50
  const JpegQualityMax: int := 80

  // Download settings.
  const DownloadConcurrency: nat := 10

  /** The search phrases, in declaration order. */
  const SearchKeywords: seq<string> := [
    "Chinese cuisine traditional dishes",
    "Japanese sushi ramen dishes",
    "Italian pizza pasta dishes",
    "French cuisine traditional dishes",
    "Mexican tacos traditional food",
    "Indian curry traditional dishes",
    "Thai food traditional dishes",
    "Korean kimchi bibimbap dishes",
    "Vietnamese pho traditional food",
    "Spanish paella tapas dishes",
    "Greek traditional food dishes",
    "Turkish kebab traditional dishes",
    "Brazilian feijoada traditional food",
    "American burger BBQ food",
    "British fish chips traditional food"
  ]

  /** The (key, country) table, in the declaration order that the lookup walks. */
  const CountryKeywords: seq<(string, string)> := [
    ("Chinese cuisine", "China"),
    ("Japanese sushi", "Japan"),
    ("Italian pizza", "Italy"),
    ("French cuisine", "France"),
    ("Mexican tacos", "Mexico"),
    ("Indian curry", "India"),
    ("Thai food", "Thailand"),
    ("Korean kimchi", "Korea"),
    ("Vietnamese pho", "Vietnam"),
    ("Spanish paella", "Spain"),
    ("Greek traditional", "Greece"),
    ("Turkish kebab", "Turkey"),
    ("Brazilian feijoada", "Brazil"),
    ("American burger", "USA"),
    ("British fish", "UK")
  ]

  const DefaultCountry: string := "Others"

  /** Index of the first table entry at or after `from` whose key occurs in `keyword`. */
  function FirstMatchFrom(table: seq<(string, string)>, keyword: string, from: nat): (r: Option<nat>)
    requires from <= |table|
    ensures r.Some? ==> from <= r.value < |table| && Contains(keyword, table[r.value].0)
    ensures r.Some? ==> forall j :: from <= j < r.value ==> !Contains(keyword, table[j].0)
    ensures r.None? ==> forall j :: from <= j < |table| ==> !Contains(keyword, table[j].0)
    decreases |table| - from
  {
    if from == |table| then None
    else if Contains(keyword, table[from].0) then Some(from)
    else FirstMatchFrom(table, keyword, from + 1)
  }

  /**
   * `getCountryFromKeyword`: the country of the first key, in declaration
   * order, that is a substring of `keyword`; "Others" when none is.
   */
  function GetCountryFromKeyword(keyword: string): (country: string)
    ensures country == DefaultCountry <==> forall j :: 0 <= j < |CountryKeywords| ==> !Contains(keyword, CountryKeywords[j].0)
    ensures country != DefaultCountry ==>
      exists i :: 0 <= i < |CountryKeywords| && Contains(keyword, CountryKeywords[i].0) &&
        country == CountryKeywords[i].1 &&
        forall j :: 0 <= j < i ==> !Contains(keyword, CountryKeywords[j].0)
  {
    CountriesAreNotDefault();
    match FirstMatchFrom(CountryKeywords, keyword, 0)
    case Some(i) => CountryKeywords[i].1
    case None => DefaultCountry
  }

  /** The lookup loop of `getCountryFromKeyword`: walks the table in order and stops at the first key found. */
  method FindFirstMatch(table: seq<(string, string)>, keyword: string) returns (r: Option<nat>)
    ensures r == FirstMatchFrom(table, keyword, 0)
  {
    var i := 0;
    while i < |table|
      invariant 0 <= i <= |table|
      invariant FirstMatchFrom(table, keyword, i) == FirstMatchFrom(table, keyword, 0)
    {
      if Contains(keyword, table[i].0) {
        return Some(i);
      }
      i := i + 1;
    }
    return None;
  }

  /** `getCountryFromKeyword` as the program runs it. */
  method FindCountry(keyword: string) returns (country: string)
    ensures country == GetCountryFromKeyword(keyword)
  {
    var r := FindFirstMatch(CountryKeywords, keyword);
    country := if r.Some? then CountryKeywords[r.value].1 else DefaultCountry;
  }

  /** No entry of the country table names the fallback country. */
  lemma CountriesAreNotDefault()
    ensures forall j :: 0 <= j < |CountryKeywords| ==> CountryKeywords[j].1 != DefaultCountry
  {
  }

  /** Each search phrase begins with the key at the same position of the country table. */
  lemma SearchKeywordsStartWithKeys()
    ensures |SearchKeywords| == |CountryKeywords|
    ensures forall i :: 0 <= i < |SearchKeywords| ==> StartsWith(SearchKeywords[i], CountryKeywords[i].0)
  {
    PhrasesStartWithKeys0To4();
    PhrasesStartWithKeys5To9();
    PhrasesStartWithKeys10To14();
  }

  lemma PhrasesStartWithKeys0To4()
    ensures forall i :: 0 <= i < 5 ==> StartsWith(SearchKeywords[i], CountryKeywords[i].0)
  {
  }

  lemma PhrasesStartWithKeys5To9()
    ensures forall i :: 5 <= i < 10 ==> StartsWith(SearchKeywords[i], CountryKeywords[i].0)
  {
  }

  lemma PhrasesStartWithKeys10To14()
    ensures forall i :: 10 <= i < 15 ==> StartsWith(SearchKeywords[i], CountryKeywords[i].0)
  {
  }

  /** Every configured search phrase is attributed to a real country, never to "Others". */
  lemma {:induction false} SearchKeywordsHaveCountries()
    ensures forall i :: 0 <= i < |SearchKeywords| ==> GetCountryFromKeyword(SearchKeywords[i]) != DefaultCountry
  {
    SearchKeywordsStartWithKeys();
    forall i | 0 <= i < |SearchKeywords|
      ensures GetCountryFromKeyword(SearchKeywords[i]) != DefaultCountry
    {
      var kw, key := SearchKeywords[i], CountryKeywords[i].0;
      assert kw[0..|key|] == key;
      ContainsAt(kw, key, 0);
    }
  }

  /** Upper-case ASCII letters: every key of the country table starts with one. */
  predicate IsUpperAscii(ch: char) {
    'A' <= ch <= 'Z'
  }

  lemma KeysStartUpperCase()
    ensures forall j :: 0 <= j < |CountryKeywords| ==> |CountryKeywords[j].0| > 0 && IsUpperAscii(CountryKeywords[j].0[0])
    ensures forall j :: 0 <= j < 12 ==> CountryKeywords[j].0[0] != 'B'
  {
  }

  /** When key `i` is the first key found in `keyword`, its country is the answer. */
  lemma FirstMatchDecides(keyword: string, i: nat)
    requires i < |CountryKeywords| && Contains(keyword, CountryKeywords[i].0)
    requires forall j :: 0 <= j < i ==> !Contains(keyword, CountryKeywords[j].0)
    ensures GetCountryFromKeyword(keyword) == CountryKeywords[i].1
  {
    assert FirstMatchFrom(CountryKeywords, keyword, 0) == Some(i);
  }

  const BrazilianPhrase: string := "Brazilian feijoada traditional food"

  /** The only upper-case letter of the Brazilian phrase is its initial 'B', so none of the first twelve keys occurs in it. */
  lemma {:induction false} NoEarlierKeyInBrazilianPhrase()
    ensures forall j :: 0 <= j < 12 ==> !Contains(BrazilianPhrase, CountryKeywords[j].0)
  {
    var kw := BrazilianPhrase;
    assert forall i :: 0 <= i < |kw| && IsUpperAscii(kw[i]) ==> kw[i] == 'B';
    KeysStartUpperCase();
    forall j | 0 <= j < 12 ensures !Contains(kw, CountryKeywords[j].0) {
      NotContainsWithoutFirstChar(kw, CountryKeywords[j].0);
    }
  }

  /** The Brazilian search phrase maps to "Brazil": no earlier key occurs in it. */
  lemma {:induction false} BrazilianPhraseMapsToBrazil()
    ensures GetCountryFromKeyword(BrazilianPhrase) == "Brazil"
  {
    NoEarlierKeyInBrazilianPhrase();
    assert BrazilianPhrase[0..18] == CountryKeywords[12].0;
    ContainsAt(BrazilianPhrase, CountryKeywords[12].0, 0);
    FirstMatchDecides(BrazilianPhrase, 12);
  }

  /** Matching is case-sensitive: a lower-case phrase matches no key and falls back to "Others". */
  lemma {:induction false} LowerCasePhraseMapsToOthers()
    ensures GetCountryFromKeyword("chinese cuisine") == DefaultCountry
  {
    var kw := "chinese cuisine";
    assert forall i :: 0 <= i < |kw| ==> !IsUpperAscii(kw[i]);
    KeysStartUpperCase();
    forall j | 0 <= j < |CountryKeywords| ensures !Contains(kw, CountryKeywords[j].0) {
      NotContainsWithoutFirstChar(kw, CountryKeywords[j].0);
    }
  }

  /** The quality range is well ordered and its 5-point steps fit well inside the 10-attempt bound. */
  lemma QualityStepsFitAttemptBound()
    ensures JpegQualityMin <= JpegQualityMax
    ensures (JpegQualityMax - JpegQualityMin) % 5 == 0
    ensures (JpegQualityMax - JpegQualityMin) / 5 == 6 && 6 < 10
  {
  }
}
