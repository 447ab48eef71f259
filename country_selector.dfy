/** The country picker: countries ordered by military strength, podium badges, the selection. */
module CountrySelector {
  import opened Wrappers
  import opened GameTypes
  import Seqs
  import Text

  /** Sorting by this key ascending orders by strength descending. */
  function StrengthKey(c: Country): int {
    -c.militaryStrength
  }

  /** `sortedCountries`: a sorted copy, strongest first. */
  function SortedCountries(countries: seq<Country>): seq<Country> {
    Seqs.SortBy(countries, StrengthKey)
  }

  /** The copy holds exactly the same countries, strongest first. */
  lemma SortedCountriesOrder(countries: seq<Country>)
    ensures var r := SortedCountries(countries);
      && |r| == |countries|
      && multiset(r) == multiset(countries)
      && forall i, j :: 0 <= i < j < |r| ==> r[i].militaryStrength >= r[j].militaryStrength
  {
    var r := SortedCountries(countries);
    forall i, j | 0 <= i < j < |r| ensures r[i].militaryStrength >= r[j].militaryStrength {
      assert StrengthKey(r[i]) <= StrengthKey(r[j]);
    }
  }

  datatype BadgeColor = Gold | Silver | Bronze
  datatype BadgeMark = CrownMark | Place(text: string)

  /** The rank badge of the card at `index` of the sorted list. */
  function RankBadge(index: nat): (r: Option<(BadgeColor, BadgeMark)>)
    ensures r.Some? <==> index < 3
    ensures index == 0 ==> r == Some((Gold, CrownMark))
    ensures index == 1 ==> r == Some((Silver, Place("#2")))
    ensures index == 2 ==> r == Some((Bronze, Place("#3")))
  {
    if index >= 3 then None
    else if index == 0 then Some((Gold, CrownMark))
    else
      assert Text.NatToString(2) == [Text.DigitChar(2)] == "2";
      assert Text.NatToString(3) == [Text.DigitChar(3)] == "3";
      assert "#" + "2" == "#2" && "#" + "3" == "#3";
      Some((if index == 1 then Silver else Bronze, Place("#" + Text.NatToString(index + 1))))
  }

  /** The country matching the selected id, when an id is selected. */
  function SelectedCountryData(countries: seq<Country>, selected: Option<string>): (r: Option<Country>)
    ensures r.Some? ==> Truthy(selected) && r.value in countries && r.value.id == selected.value
    ensures r.None? <==> !Truthy(selected) || forall c :: c in countries ==> c.id != selected.value
    ensures r.Some? ==>
      (exists k :: 0 <= k < |countries| && countries[k] == r.value && forall j :: 0 <= j < k ==> countries[j].id != selected.value)
  {
    if Truthy(selected) then Seqs.Find(countries, (c: Country) => c.id == selected.value) else None
  }
}
