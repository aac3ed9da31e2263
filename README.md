# Coffee-store lookup, modelled in Dafny

This project models the store lookup of the Next.js "coffee connoisseur" app,
`lib/coffee-stores.js`. That module:

- builds the Foursquare place-search URL from coordinates, a category and a limit;
- takes the `small` URL of each Unsplash photo in a photo search;
- maps each place-search result to a store record `{ id, address, name, neighbourhood, imgUrl }`.

The two HTTP responses are inputs of the model. The module is pure code: a
template string, two `.map` calls and two conditional expressions. So it is
modelled with datatypes, functions and lemmas.

Files:

- `wrappers.dfy` (`Wrappers`): `Option` and `Result`. `None` stands for a
  JavaScript property that is absent.
- `js_text.dfy` (`JsText`): how a template literal renders an integer
  (`IntToString`) and a parser that reads it back (`ParseInteger`).
- `query.dfy` (`Query`): a reference reading of a URL into a base and its
  `name=value` parameters, split on `?`, `&` and `=`. Values are not
  percent-decoded.
- `coffee_stores.dfy` (`CoffeeStores`): the input and output datatypes,
  `PlacesUrl`, `PhotoUrls`, `Normalize`, `FetchCoffeeStores` and the lemmas
  about them.

Points where the model follows the code closely:

- A record's image has three cases: `Null`, `Undefined` and `Url(s)`. With no
  photos the code writes `null`. With photos, it indexes the photo list by
  position. One might expect `null` past the end as well, but past the end of
  a non-empty list the code yields `undefined`. So a record has a URL exactly
  when its index is below the number of photos.
- `address` is copied as it is. When the place has no address, the record
  holds `undefined` (`None`).
- The URL template puts a literal `5` right after the coordinates. So the
  `ll` parameter sent is the coordinates followed by `5`, and never the
  coordinates themselves (`PlacesUrlAltersLatLong`). The model keeps the `5`.
- A place-search body without `results` makes `data.results.map` throw a
  TypeError. The model returns `Failure(ResultsMissing)`.
- A default argument applies only when the argument is absent. An absent
  argument is `None`.

## Model

| member | source | states |
|---|---|---|
| CoffeeStores.PlacesUrlParams | lib/coffee-stores.js:11-13 | the URL reads back as the place-search endpoint with exactly three parameters, in order: `ll` = coordinates + `5`, `categories` = the category, and `limit`, which parses back to the given limit (when the coordinates and category contain no `&`) |
| CoffeeStores.PlacesUrlAltersLatLong | lib/coffee-stores.js:12 | the `ll` value sent is never the given coordinates: they are a proper prefix of it |
| JsText.IntToStringRoundTrip | lib/coffee-stores.js:12 | the decimal rendering of the limit in the template reads back as the same integer |
| JsText.IntToStringInjective | lib/coffee-stores.js:12 | two limits give the same limit text in the URL exactly when they are equal |
| CoffeeStores.PhotoUrlsSpec | lib/coffee-stores.js:20-21 | the photo list is empty when the response or its `results` is absent; otherwise it has one entry per result, in order, each equal to that result's `small` URL |
| CoffeeStores.FetchCoffeeStores | lib/coffee-stores.js:24-52 | the lookup yields records exactly when the place-search body has `results`, and then one record per result |
| CoffeeStores.FetchUrlParams | lib/coffee-stores.js:24-38 | the search goes to the place-search endpoint and always asks for category `13032`; an absent coordinate pair becomes `43.653833032607096%2C-79.37896808855945` (followed by `5`) and an absent limit becomes 6, sent as the text `6`; given arguments are used instead |
| CoffeeStores.FetchRecords | lib/coffee-stores.js:41-51 | each returned record is built from the place result at the same position and the photo list from the same lookup |
| CoffeeStores.NormalizeSpec | lib/coffee-stores.js:42-51 | as many records as results, and record `i` is built from result `i`, index `i` and the photo list alone, so order is kept |
| CoffeeStores.NormalizeCopiesFields | lib/coffee-stores.js:45-47 | each record's `id`, `name` and `address` equal the `fsq_id`, `name` and `location.address` of the result at the same position |
| CoffeeStores.NormalizeNeighbourhood | lib/coffee-stores.js:43-48 | `neighbourhood` is the first listed name when the list is present and non-empty, and the empty string when it is absent or empty |
| CoffeeStores.NormalizeImages | lib/coffee-stores.js:49 | record `i` has an image URL exactly when `i` is below the number of photos, and then it is photo `i`; the image is `null` exactly when there are no photos, and `undefined` exactly when there are photos but `i` is past the end |
| CoffeeStores.NoPhotosAllNull | lib/coffee-stores.js:49 | with an empty photo list, every record's image is `null`, whatever the number of places |
| CoffeeStores.NormalizePrefix | lib/coffee-stores.js:42-51 | normalising the first `k` results gives the first `k` records, so no record depends on later results |

## Left out

- Creating the Unsplash client and reading the access keys from the environment (lines 3-9 and 33). These are configuration and state of a foreign library.
- The HTTP requests, the `Authorization` and `Accept` headers, `response.json()` and the `await` sequencing (lines 16-19 and 29-41). The photo-search result and the parsed place-search body are inputs of the model. A network failure, which rejects the promise, is not modelled.
- A place result without `location`, or a photo without `urls`, makes the code throw. The input datatypes always have these fields, so these throws are not modelled.
- The limit is modelled as an integer. Numbers that are not integers, and integers whose magnitude is 1e21 or more, which JavaScript prints in exponent form (`1e+21`, `-1e+21`), are not modelled.
- A place's `fsq_id` and `name`, and a photo's `urls.small`, are assumed present. The code copies each of them even when it is missing, so it can produce a record with `id: undefined`, or an `undefined` image inside the photo range. The model types these fields as plain strings and cannot express those records.
- `Query.ParseUrl` does not percent-decode values. So the default `ll` value is compared in its encoded form, `%2C`.
- `pages/index.js` is not part of this model. It covers rendering, a `getStaticProps` that returns a bundled JSON list, and the `imgUrl || placeholder` fallback, which applies only on display.
- `pages/_document.js` and `pages/coffee-store/[id].js` are not part of this model. They hold static markup and routing with no logic.
- Geolocation, the UI state reducer and the create/upvote API routes are not part of this model. Their source is not among the modelled files, and they are browser, network and persistence concerns.
