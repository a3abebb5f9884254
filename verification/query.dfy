/**
 * The query string of the `/dogs/search` request: the `URLSearchParams` list
 * that `fetchDogs` fills before it calls `fetch`, as an ordered list of
 * name/value pairs, and `getAll` to read it back.
 */
module SearchQuery {
  import opened Text

  /** RESULTS_PER_PAGE: the page size of every search request. */
  const ResultsPerPage: nat := 24

  /** `String(RESULTS_PER_PAGE)`. */
  const PageSizeText := "24"

  lemma PageSizeTextIsPageSize()
    ensures PageSizeText == NatToString(ResultsPerPage)
  {
    assert NatToString(2) == "2";
  }

  /** The four keys the search request uses. */
  datatype Key = Size | Sort | From | Breeds

  /** The text of each key in the query string. */
  function KeyText(k: Key): string {
    match k
    case Size => "size"
    case Sort => "sort"
    case From => "from"
    case Breeds => "breeds"
  }

  datatype Param = Param(name: Key, value: string)

  /** The zero-based index of the first result of a 1-based page. */
  function Offset(page: int): int {
    (page - 1) * ResultsPerPage
  }

  /** `params.getAll(name)`: the values of every pair with that name, in order. */
  function GetAll(params: seq<Param>, name: Key): (values: seq<string>)
    ensures |values| <= |params|
  {
    if params == [] then []
    else (if params[0].name == name then [params[0].value] else []) + GetAll(params[1..], name)
  }

  lemma {:induction false} GetAllAppend(a: seq<Param>, b: seq<Param>, name: Key)
    ensures GetAll(a + b, name) == GetAll(a, name) + GetAll(b, name)
    decreases |a|
  {
    if a == [] {
      assert a + b == b;
    } else {
      var head := if a[0].name == name then [a[0].value] else [];
      assert (a + b)[0] == a[0];
      assert (a + b)[1..] == a[1..] + b;
      GetAllAppend(a[1..], b, name);
      calc {
        GetAll(a + b, name);
        head + GetAll(a[1..] + b, name);
        head + (GetAll(a[1..], name) + GetAll(b, name));
        (head + GetAll(a[1..], name)) + GetAll(b, name);
        GetAll(a, name) + GetAll(b, name);
      }
    }
  }

  /** One `breeds` pair per selected breed, in selection order. */
  function BreedParams(breeds: seq<string>): seq<Param> {
    if breeds == [] then []
    else BreedParams(breeds[..|breeds| - 1]) + [Param(Breeds, breeds[|breeds| - 1])]
  }

  /** The `from` pair, present only when the offset is positive. */
  function FromParams(page: int): seq<Param> {
    if Offset(page) > 0 then [Param(From, NatToString(Offset(page)))] else []
  }

  /**
   * The parameter list `fetchDogs(page)` sends: `size`, then `sort`, then
   * `from` only when the offset is positive, then the breeds.
   */
  function SearchParams(page: int, sortOrder: string, selectedBreeds: seq<string>): seq<Param> {
    [Param(Size, PageSizeText), Param(Sort, sortOrder)] + FromParams(page) + BreedParams(selectedBreeds)
  }

  /** Builds the list step by step, appending each breed as `forEach` does. */
  method BuildSearchParams(page: int, sortOrder: string, selectedBreeds: seq<string>)
    returns (params: seq<Param>)
    ensures params == SearchParams(page, sortOrder, selectedBreeds)
  {
    var fromOffset := (page - 1) * ResultsPerPage;
    params := [];
    params := params + [Param(Size, PageSizeText)];
    params := params + [Param(Sort, sortOrder)];
    if fromOffset > 0 {
      params := params + [Param(From, NatToString(fromOffset))];
    }
    ghost var head := params;
    for i := 0 to |selectedBreeds|
      invariant params == head + BreedParams(selectedBreeds[..i])
    {
      assert selectedBreeds[..i + 1][..i] == selectedBreeds[..i];
      params := params + [Param(Breeds, selectedBreeds[i])];
    }
    assert selectedBreeds[..|selectedBreeds|] == selectedBreeds;
  }

  lemma {:induction false} GetAllBreedParams(breeds: seq<string>, name: Key)
    ensures GetAll(BreedParams(breeds), name) == if name == Breeds then breeds else []
    decreases |breeds|
  {
    if breeds != [] {
      var init := breeds[..|breeds| - 1];
      var p := Param(Breeds, breeds[|breeds| - 1]);
      GetAllBreedParams(init, name);
      GetAllAppend(BreedParams(init), [p], name);
      assert GetAll([p], name) == (if name == Breeds then [p.value] else []);
      assert init + [breeds[|breeds| - 1]] == breeds;
    }
  }

  /**
   * What the search request carries: exactly one `size` of "24", exactly one
   * `sort` equal to the sort order, a `from` exactly when the offset
   * (page - 1) * 24 is positive, whose text reads back as that offset, and
   * the selected breeds as the `breeds` values in their order (none when
   * nothing is selected).
   */
  lemma SearchParamsContents(page: int, sortOrder: string, selectedBreeds: seq<string>)
    ensures var q := SearchParams(page, sortOrder, selectedBreeds);
      && GetAll(q, Size) == ["24"]
      && GetAll(q, Sort) == [sortOrder]
      && GetAll(q, Breeds) == selectedBreeds
      && (|GetAll(q, From)| == 1 <==> Offset(page) > 0)
      && (|GetAll(q, From)| == 1 <==> page > 1)
      && (Offset(page) <= 0 ==> GetAll(q, From) == [])
      && (Offset(page) > 0 ==> AllDigits(GetAll(q, From)[0]) && ParseDecimal(GetAll(q, From)[0]) == Offset(page))
  {
    GetAllSearchParams(page, sortOrder, selectedBreeds, Size);
    GetAllSearchParams(page, sortOrder, selectedBreeds, Sort);
    GetAllSearchParams(page, sortOrder, selectedBreeds, From);
    GetAllSearchParams(page, sortOrder, selectedBreeds, Breeds);
    GetAllFromParams(page, Size);
    GetAllFromParams(page, Sort);
    GetAllFromParams(page, From);
    GetAllFromParams(page, Breeds);
    if Offset(page) > 0 {
      ParseNatToString(Offset(page));
    }
  }

  /** `getAll` on the search list, one part at a time. */
  lemma GetAllSearchParams(page: int, sortOrder: string, selectedBreeds: seq<string>, name: Key)
    ensures GetAll(SearchParams(page, sortOrder, selectedBreeds), name)
      == (if name == Size then [PageSizeText] else [])
         + (if name == Sort then [sortOrder] else [])
         + GetAll(FromParams(page), name)
         + (if name == Breeds then selectedBreeds else [])
  {
    var size := [Param(Size, PageSizeText)];
    var sort := [Param(Sort, sortOrder)];
    var from := FromParams(page);
    var breeds := BreedParams(selectedBreeds);
    assert SearchParams(page, sortOrder, selectedBreeds) == size + sort + from + breeds;
    GetAllAppend(size + sort + from, breeds, name);
    GetAllAppend(size + sort, from, name);
    GetAllAppend(size, sort, name);
    GetAllOne(Param(Size, PageSizeText), name);
    GetAllOne(Param(Sort, sortOrder), name);
    GetAllBreedParams(selectedBreeds, name);
  }

  lemma GetAllOne(p: Param, name: Key)
    ensures GetAll([p], name) == if p.name == name then [p.value] else []
  {
    assert [p][1..] == [];
  }

  /** The `from` pair reads back as the offset, and is the only one of its name. */
  lemma GetAllFromParams(page: int, name: Key)
    ensures Offset(page) <= 0 ==> GetAll(FromParams(page), name) == []
    ensures Offset(page) > 0 ==> GetAll(FromParams(page), name) == if name == From then [NatToString(Offset(page))] else []
  {
    if Offset(page) > 0 {
      GetAllOne(Param(From, NatToString(Offset(page))), name);
    }
  }
}
