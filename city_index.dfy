/** The city index (`makeCityMap` in clabe.js): the ordered list of
    (city code, city name) entries grouped into a map from code to the names
    of that code joined by ", ". */
module CityIndex {

  type CityEntry = (int, string)

  /** `prefix(code)`: the names already stored for `code` followed by ", ",
      or nothing when the stored value is missing or the empty string
      (both are falsy in JavaScript). */
  function Prefix(index: map<int, string>, code: int): string {
    if code in index && index[code] != "" then index[code] + ", " else ""
  }

  /** `addCity(city)`: one step of the grouping. */
  function AddCity(index: map<int, string>, entry: CityEntry): map<int, string> {
    index[entry.0 := Prefix(index, entry.0) + entry.1]
  }

  /** The index after `forEach(addCity)` over `cities`, starting from `{}`. */
  function GroupCities(cities: seq<CityEntry>): map<int, string> {
    if cities == [] then map[] else AddCity(GroupCities(cities[..|cities| - 1]), cities[|cities| - 1])
  }

  // ---- An independent description of the index ----

  /** The names of the entries with code `code`, in list order. */
  function NamesWithCode(cities: seq<CityEntry>, code: int): seq<string> {
    if cities == [] then []
    else (if cities[0].0 == code then [cities[0].1] else []) + NamesWithCode(cities[1..], code)
  }

  /** `names` without its leading empty names. */
  function DropLeadingEmpty(names: seq<string>): seq<string> {
    if names == [] || names[0] != "" then names else DropLeadingEmpty(names[1..])
  }

  /** The names separated by ", ". */
  function Join(names: seq<string>): string {
    if names == [] then ""
    else if |names| == 1 then names[0]
    else names[0] + ", " + Join(names[1..])
  }

  lemma {:induction false} NamesWithCodeSnoc(cities: seq<CityEntry>, entry: CityEntry, code: int)
    ensures NamesWithCode(cities + [entry], code)
         == NamesWithCode(cities, code) + (if entry.0 == code then [entry.1] else [])
  {
    if cities != [] {
      assert (cities + [entry])[1..] == cities[1..] + [entry];
      NamesWithCodeSnoc(cities[1..], entry, code);
    }
  }

  lemma {:induction false} NamesWithCodeEmpty(cities: seq<CityEntry>, code: int)
    ensures NamesWithCode(cities, code) == [] <==> forall i :: 0 <= i < |cities| ==> cities[i].0 != code
  {
    if cities != [] {
      NamesWithCodeEmpty(cities[1..], code);
      assert forall i :: 1 <= i < |cities| ==> cities[i] == cities[1..][i - 1];
    }
  }

  lemma {:induction false} DropLeadingEmptyHead(names: seq<string>)
    ensures DropLeadingEmpty(names) != [] ==> DropLeadingEmpty(names)[0] != ""
  {
    if names != [] && names[0] == "" {
      DropLeadingEmptyHead(names[1..]);
    }
  }

  lemma {:induction false} DropLeadingEmptySnoc(names: seq<string>, name: string)
    ensures DropLeadingEmpty(names + [name])
         == if DropLeadingEmpty(names) == [] then DropLeadingEmpty([name]) else DropLeadingEmpty(names) + [name]
  {
    if names != [] {
      assert (names + [name])[0] == names[0];
      if names[0] == "" {
        assert (names + [name])[1..] == names[1..] + [name];
        DropLeadingEmptySnoc(names[1..], name);
      }
    }
  }

  lemma {:induction false} JoinSnoc(names: seq<string>, name: string)
    requires names != []
    ensures Join(names + [name]) == Join(names) + ", " + name
  {
    if |names| > 1 {
      assert (names + [name])[1..] == names[1..] + [name];
      JoinSnoc(names[1..], name);
    }
  }

  lemma {:induction false} JoinStartsWithHead(names: seq<string>)
    requires names != []
    ensures |Join(names)| >= |names[0]|
  {
  }

  /** The index built from `cities` has an entry for exactly the codes that
      occur in the list, and the entry for a code holds the names listed under
      it, in list order, separated by ", " (leading empty names leave no
      separator behind, because an empty stored value counts as absent). */
  lemma {:induction false} GroupCitiesContents(cities: seq<CityEntry>, code: int)
    ensures code in GroupCities(cities) <==> NamesWithCode(cities, code) != []
    ensures code in GroupCities(cities) ==>
              GroupCities(cities)[code] == Join(DropLeadingEmpty(NamesWithCode(cities, code)))
  {
    if cities != [] {
      var init, entry := cities[..|cities| - 1], cities[|cities| - 1];
      assert cities == init + [entry];
      GroupCitiesContents(init, code);
      NamesWithCodeSnoc(init, entry, code);
      var names := NamesWithCode(init, code);
      var index := GroupCities(init);
      assert GroupCities(cities) == AddCity(index, entry);
      if entry.0 == code {
        DropLeadingEmptySnoc(names, entry.1);
        var kept := DropLeadingEmpty(names);
        if kept != [] {
          DropLeadingEmptyHead(names);
          JoinStartsWithHead(kept);
          JoinSnoc(kept, entry.1);
          assert Prefix(index, code) == Join(kept) + ", ";
        } else {
          assert Prefix(index, code) == "";
          assert DropLeadingEmpty([entry.1]) == if entry.1 == "" then [] else [entry.1];
        }
      } else {
        assert NamesWithCode(cities, code) == names;
      }
    }
  }

  /** Each code of the list is looked up to the names listed under it, and no
      other code is in the index. */
  lemma GroupCitiesDomain(cities: seq<CityEntry>, code: int)
    ensures code in GroupCities(cities) <==> exists i :: 0 <= i < |cities| && cities[i].0 == code
  {
    GroupCitiesContents(cities, code);
    NamesWithCodeEmpty(cities, code);
  }

  /** With no empty names in the list, the entry for a code is the plain
      ", "-separated list of its names. */
  lemma GroupCitiesWithoutEmptyNames(cities: seq<CityEntry>, code: int)
    requires forall i :: 0 <= i < |cities| ==> cities[i].1 != ""
    requires code in GroupCities(cities)
    ensures GroupCities(cities)[code] == Join(NamesWithCode(cities, code))
  {
    GroupCitiesContents(cities, code);
    NamesWithCodeNonEmpty(cities, code);
  }

  lemma {:induction false} NamesWithCodeNonEmpty(cities: seq<CityEntry>, code: int)
    requires forall i :: 0 <= i < |cities| ==> cities[i].1 != ""
    ensures DropLeadingEmpty(NamesWithCode(cities, code)) == NamesWithCode(cities, code)
  {
    if cities != [] {
      NamesWithCodeNonEmpty(cities[1..], code);
      if cities[0].0 != code {
        assert NamesWithCode(cities, code) == NamesWithCode(cities[1..], code);
      }
    }
  }
}
