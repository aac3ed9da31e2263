/**
 * The coffee-store lookup: building the place-search URL, extracting the
 * photo URLs from a photo-search response, and shaping each place-search
 * result into a store record. The two HTTP responses are inputs here.
 */
module CoffeeStores {
  import opened Wrappers
  import opened JsText
  import opened Query

  // ----- Inputs: the two responses, as far as the code reads them -----

  /** One photo of a photo search; only its `small` URL is read. */
  datatype PhotoResult = PhotoResult(smallUrl: string)

  /** The body of a photo search, whose `results` may be absent. */
  datatype PhotoPage = PhotoPage(results: Option<seq<PhotoResult>>)

  /** What the photo client returns; `response` is absent when the search failed. */
  datatype PhotoSearch = PhotoSearch(response: Option<PhotoPage>)

  /** A place's `location`: `address` and `neighborhood` may be absent. */
  datatype Location = Location(address: Option<string>, neighborhood: Option<seq<string>>)

  /** One entry of a place search's `results`. */
  datatype PlaceResult = PlaceResult(fsqId: string, name: string, location: Location)

  /** The parsed JSON body of a place search, whose `results` may be absent. */
  datatype PlaceSearch = PlaceSearch(results: Option<seq<PlaceResult>>)

  // ----- Output: the store record -----

  /** A record's image: JavaScript `null`, `undefined`, or a URL string. */
  datatype ImgUrl = Null | Undefined | Url(url: string)

  /** `address` is `None` where the place had no address (the record holds `undefined`). */
  datatype StoreRecord = StoreRecord(
    id: string,
    address: Option<string>,
    name: string,
    neighbourhood: string,
    imgUrl: ImgUrl)

  /** Reading `data.results` when it is absent throws a TypeError. */
  datatype FetchError = ResultsMissing

  /** The URL the place search is sent to, and the store list (or the error thrown). */
  datatype StoreFetch = StoreFetch(url: string, stores: Result<seq<StoreRecord>, FetchError>)

  // ----- Constants -----

  const PlacesSearchBase := "https://api.foursquare.com/v3/places/search"
  const DefaultLatLong := "43.653833032607096%2C-79.37896808855945"
  const DefaultLimit := 6
  /** The place category the search always asks for (coffee shops). */
  const CoffeeCategory := "13032"

  // ----- The place-search URL -----

  /** The URL template; note the literal `5` that follows the coordinates. */
  function PlacesUrl(latLong: string, category: string, limit: int): string {
    "https://api.foursquare.com/v3/places/search?ll=" + latLong + "5&categories=" + category
      + "&limit=" + IntToString(limit)
  }

  /** The URL reads back as the search endpoint with three parameters: `ll` is
      the coordinates followed by `5`, then the category, then the decimal limit.
      The coordinates and category must not contain `&`, which would start a
      new parameter. */
  lemma PlacesUrlParams(latLong: string, category: string, limit: int)
    requires '&' !in latLong && '&' !in category
    ensures ParseUrl(PlacesUrl(latLong, category, limit)) == ParsedUrl(PlacesSearchBase,
      [("ll", latLong + "5"), ("categories", category), ("limit", IntToString(limit))])
    ensures ParseInteger(ParseUrl(PlacesUrl(latLong, category, limit)).params[2].1) == Some(limit)
  {
    var lim := IntToString(limit);
    var ll := latLong + "5";
    NoAmpersandInInt(limit);
    assert '&' !in ll by {
      assert forall i :: 0 <= i < |latLong| ==> ll[i] == latLong[i];
    }
    PlacesUrlShape(latLong, category, limit);
    ParseThreeParams(PlacesSearchBase, "ll", ll, "categories", category, "limit", lim);
    IntToStringRoundTrip(limit);
  }

  lemma NoAmpersandInInt(n: int)
    ensures '&' !in IntToString(n)
  {
  }

  /** A regrouping of `PlacesUrl`'s template into `name=value` pieces, a proof step for `PlacesUrlParams`. */
  lemma PlacesUrlShape(latLong: string, category: string, limit: int)
    ensures PlacesUrl(latLong, category, limit)
         == PlacesSearchBase + "?" + "ll" + "=" + (latLong + "5") + "&" + "categories" + "=" + category
            + "&" + "limit" + "=" + IntToString(limit)
  {
  }

  /** Because of the `5`, the `ll` parameter the search sends is never the
      coordinates it was given. */
  lemma PlacesUrlAltersLatLong(latLong: string, category: string, limit: int)
    requires '&' !in latLong && '&' !in category
    ensures ParseUrl(PlacesUrl(latLong, category, limit)).params[0].1 != latLong
    ensures latLong < ParseUrl(PlacesUrl(latLong, category, limit)).params[0].1
  {
    PlacesUrlParams(latLong, category, limit);
    assert (latLong + "5")[..|latLong|] == latLong;
  }

  // ----- Photos -----

  /** The `small` URL of each photo, in order. */
  function SmallUrls(results: seq<PhotoResult>): (urls: seq<string>)
    ensures |urls| == |results|
  {
    if results == [] then [] else [results[0].smallUrl] + SmallUrls(results[1..])
  }

  /** The photo list: empty when the response or its results are absent. */
  function PhotoUrls(search: PhotoSearch): seq<string> {
    var results := if search.response.Some? then search.response.value.results.GetOr([]) else [];
    SmallUrls(results)
  }

  lemma {:induction false} SmallUrlsAt(results: seq<PhotoResult>, i: nat)
    requires i < |results|
    ensures SmallUrls(results)[i] == results[i].smallUrl
  {
    if i > 0 {
      SmallUrlsAt(results[1..], i - 1);
    }
  }

  /** Without `response.results` there are no photos; otherwise there is one
      URL per result, in order, each that result's `small` URL. */
  lemma PhotoUrlsSpec(search: PhotoSearch)
    ensures (search.response.None? || search.response.value.results.None?) ==> PhotoUrls(search) == []
    ensures search.response.Some? && search.response.value.results.Some? ==>
      var results := search.response.value.results.value;
      |PhotoUrls(search)| == |results| &&
      forall i :: 0 <= i < |results| ==> PhotoUrls(search)[i] == results[i].smallUrl
  {
    if search.response.Some? && search.response.value.results.Some? {
      var results := search.response.value.results.value;
      forall i | 0 <= i < |results| ensures PhotoUrls(search)[i] == results[i].smallUrl {
        SmallUrlsAt(results, i);
      }
    }
  }

  // ----- Normalisation -----

  /** The first listed neighbourhood, or the empty string when the list is absent or empty. */
  function Neighbourhood(neighborhood: Option<seq<string>>): string {
    if neighborhood.Some? && |neighborhood.value| > 0 then neighborhood.value[0] else ""
  }

  /** Photos are matched by position; with no photos at all the image is `null`,
      and past the end of a non-empty list JavaScript indexing gives `undefined`. */
  function ImgUrlAt(photos: seq<string>, idx: nat): ImgUrl {
    if |photos| > 0 then (if idx < |photos| then Url(photos[idx]) else Undefined) else Null
  }

  function ToStoreRecord(result: PlaceResult, idx: nat, photos: seq<string>): StoreRecord {
    StoreRecord(
      id := result.fsqId,
      address := result.location.address,
      name := result.name,
      neighbourhood := Neighbourhood(result.location.neighborhood),
      imgUrl := ImgUrlAt(photos, idx))
  }

  /** The index-carrying `map` over `results`, with the first one at index `start`. */
  function NormalizeFrom(results: seq<PlaceResult>, start: nat, photos: seq<string>): (records: seq<StoreRecord>)
    ensures |records| == |results|
  {
    if results == [] then []
    else [ToStoreRecord(results[0], start, photos)] + NormalizeFrom(results[1..], start + 1, photos)
  }

  function Normalize(results: seq<PlaceResult>, photos: seq<string>): seq<StoreRecord> {
    NormalizeFrom(results, 0, photos)
  }

  lemma {:induction false} NormalizeFromAt(results: seq<PlaceResult>, start: nat, photos: seq<string>, i: nat)
    requires i < |results|
    ensures NormalizeFrom(results, start, photos)[i] == ToStoreRecord(results[i], start + i, photos)
  {
    if i > 0 {
      NormalizeFromAt(results[1..], start + 1, photos, i - 1);
    }
  }

  /** One record per result, in the same order: record `i` is built from result `i` alone. */
  lemma NormalizeSpec(results: seq<PlaceResult>, photos: seq<string>)
    ensures |Normalize(results, photos)| == |results|
    ensures forall i :: 0 <= i < |results| ==>
      Normalize(results, photos)[i] == ToStoreRecord(results[i], i, photos)
  {
    forall i | 0 <= i < |results|
      ensures Normalize(results, photos)[i] == ToStoreRecord(results[i], i, photos)
    {
      NormalizeFromAt(results, 0, photos, i);
    }
  }

  /** `id`, `name` and `address` are copied unchanged from the result at the same position. */
  lemma NormalizeCopiesFields(results: seq<PlaceResult>, photos: seq<string>)
    ensures forall i :: 0 <= i < |results| ==>
      var r := Normalize(results, photos)[i];
      r.id == results[i].fsqId && r.name == results[i].name && r.address == results[i].location.address
  {
    NormalizeSpec(results, photos);
  }

  /** The neighbourhood is the first listed name when the list is present and
      non-empty, and the empty string otherwise. */
  lemma NormalizeNeighbourhood(results: seq<PlaceResult>, photos: seq<string>)
    ensures forall i :: 0 <= i < |results| ==>
      var nb := results[i].location.neighborhood;
      var r := Normalize(results, photos)[i];
      (nb.Some? && |nb.value| > 0 ==> r.neighbourhood == nb.value[0]) &&
      (nb.None? || |nb.value| == 0 ==> r.neighbourhood == "")
  {
    NormalizeSpec(results, photos);
  }

  /** Record `i` has an image URL exactly when `i` is below the number of photos,
      and it is then photo `i`; it is `null` exactly when there are no photos,
      and `undefined` exactly when there are photos but fewer than `i + 1`. */
  lemma NormalizeImages(results: seq<PlaceResult>, photos: seq<string>)
    ensures forall i :: 0 <= i < |results| ==>
      var img := Normalize(results, photos)[i].imgUrl;
      (img.Url? <==> i < |photos|) &&
      (i < |photos| ==> img.url == photos[i]) &&
      (img == Null <==> |photos| == 0) &&
      (img == Undefined <==> 0 < |photos| <= i)
  {
    NormalizeSpec(results, photos);
  }

  /** With an empty photo list every record's image is `null`, however many places there are. */
  lemma NoPhotosAllNull(results: seq<PlaceResult>)
    ensures |Normalize(results, [])| == |results|
    ensures forall i :: 0 <= i < |results| ==> Normalize(results, [])[i].imgUrl == Null
  {
    NormalizeSpec(results, []);
  }

  /** Normalising the first `k` results gives the first `k` records: nothing
      about a record depends on the results after it. */
  lemma NormalizePrefix(results: seq<PlaceResult>, photos: seq<string>, k: nat)
    requires k <= |results|
    ensures Normalize(results[..k], photos) == Normalize(results, photos)[..k]
  {
    NormalizeSpec(results[..k], photos);
    NormalizeSpec(results, photos);
  }

  // ----- The whole lookup -----

  /** `fetchCoffeeStores`: an absent argument takes its default; the search is
      always for coffee shops; the records are the place results normalised
      against the photo list. */
  function FetchCoffeeStores(latLong: Option<string>, limit: Option<int>,
                             photoSearch: PhotoSearch, data: PlaceSearch): (f: StoreFetch)
    ensures f.stores.Success? <==> data.results.Some?
    ensures f.stores.Success? ==> |f.stores.value| == |data.results.value|
  {
    var photos := PhotoUrls(photoSearch);
    var url := PlacesUrl(latLong.GetOr(DefaultLatLong), CoffeeCategory, limit.GetOr(DefaultLimit));
    match data.results
    case None => StoreFetch(url, Failure(ResultsMissing))
    case Some(results) => StoreFetch(url, Success(Normalize(results, photos)))
  }

  /** With no arguments the search asks for 6 coffee shops around the default
      coordinates (followed by the `5`); given arguments replace those two. */
  lemma FetchUrlParams(latLong: Option<string>, limit: Option<int>, photoSearch: PhotoSearch, data: PlaceSearch)
    requires latLong.Some? ==> '&' !in latLong.value
    ensures var u := ParseUrl(FetchCoffeeStores(latLong, limit, photoSearch, data).url);
      u.base == "https://api.foursquare.com/v3/places/search" &&
      |u.params| == 3 &&
      u.params[0] == ("ll", (if latLong.Some? then latLong.value else DefaultLatLong) + "5") &&
      u.params[1] == ("categories", "13032") &&
      u.params[2] == ("limit", IntToString(if limit.Some? then limit.value else 6)) &&
      ParseInteger(u.params[2].1) == Some(if limit.Some? then limit.value else 6)
  {
    PlacesUrlParams(latLong.GetOr(DefaultLatLong), CoffeeCategory, limit.GetOr(DefaultLimit));
  }

  /** Each returned record is the result at its position combined with the photo at that position. */
  lemma FetchRecords(latLong: Option<string>, limit: Option<int>, photoSearch: PhotoSearch, data: PlaceSearch)
    requires data.results.Some?
    ensures var f := FetchCoffeeStores(latLong, limit, photoSearch, data);
      f.stores.Success? &&
      forall i :: 0 <= i < |data.results.value| ==>
        f.stores.value[i] == ToStoreRecord(data.results.value[i], i, PhotoUrls(photoSearch))
  {
    NormalizeSpec(data.results.value, PhotoUrls(photoSearch));
  }
}
