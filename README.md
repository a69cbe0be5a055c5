# tif2geojson in Dafny

A model of `tif2geojson`, which converts a TourInFrance XML feed into a
GeoJSON FeatureCollection. The parsed document is a tree of `Node`s:

- `Null`: the parser's None;
- `Str`: a text leaf;
- `Map`: child tags, `@`-attributes and `#text`;
- `Seq`: a tag that repeats among its siblings.

The model is in five modules:

- `Tree` (tree.dfy) has the two navigation helpers. `DeepValue` walks a chain
  of keys. The default replaces an absent key and a final `{}`, `[]` or None.
  `DeepValueList` does the same walk and then wraps a single node in a list.
  Both are proved against a reference definition of a path (`PathDefined`,
  `Follow`).
- `Catalog` (catalog.dfy) holds the constants: the default language `EN`, the
  six catalog properties in order, and the type codes for website, image,
  phone and main contact.
- `Extract` (extract.dfy) holds the specification functions for one entry:
  its identifier, its geometry (the first location with a latitude, as
  `[longitude, latitude, altitude]`), its title, category and description
  (matched on a language prefix), its website and phone (through the nested
  contact → address → person scan, reading the person's media as the source
  does), its pictures, the filtered properties
  mapping, and one feature per entry. It also holds the lemmas that say what
  these functions mean.
- `Conversion` (conversion.dfy) holds the `Converter` class. Its fields are
  `content`, `properties` and `lang`; the XML parser is a constructor
  argument. Each source loop is a method with invariants, proved equal to its
  `Extract` function. `Call` overwrites `lang` only with a non-empty
  language, so the converter keeps the language of its last call.
- `Corrected` (corrected.dfy) holds the website and phone lookup with the
  media normalised to a list, as evidently intended, and the lemmas that
  compare it with the converter. See "Findings".

The source behaves as follows, and the model follows it:

- A missing `dc:identifier` gives the empty mapping `{}` as the feature id
  (tif2geojson.py:46-47). The id is not null or absent.
- The converter keeps its language across calls (tif2geojson.py:26). A call
  without a language uses the previous call's language.
- The media scan also accepts a contact that is falsy. When a qualifying
  contact yields no person, the scan goes on to the next contact
  (tif2geojson.py:113-126). It does not stop at the first main contact.
  A falsy contact never supplies a person, though: it has no addresses
  (`Extract.FalsyContactYieldsNoPerson`). In Python the only falsy contact
  the parser produces is None, on which line 117 raises; see the "## Left
  out" line on navigation into a node that is not a mapping.
- With no selection, every catalog property is computed
  (tif2geojson.py:8-9, 79-82), so a feature has six keys, `category` and
  `phone` included. `Extract.PropertyKeys` states this. The test at
  tests/test_tif2geojson.py:75-79 expects only four default keys.

## Model

| member | source | states |
|---|---|---|
| Tree.Resolve | tif2geojson.py:162-171 | The result is the node at the end of the key path when every key is present and that node is not `{}`, `[]` or None. Otherwise it is the default. Both directions are stated against the reference path definition. |
| Tree.DeepValue | tif2geojson.py:162-171 | The key-by-key loop returns exactly `Resolve`. |
| Tree.WalkFollows | tif2geojson.py:165-167 | Applying `.get(key, {})` once per key reaches the end of a defined path. It reaches `{}` as soon as one key is absent. |
| Tree.DeepValueList | tif2geojson.py:174-178 | A list result is unchanged. A truthy non-list result becomes a one-element list. A falsy result is unchanged. The result is always a list or falsy, so it is safe to iterate. |
| Tree.ListItemsOfPath | tif2geojson.py:174-178 | What a loop over the list helper visits: nothing for an absent path, the list's elements, or the single node alone. |
| Tree.SingleAndListAgree | tif2geojson.py:174-178 | A tag that occurs once and the same tag as a one-element list are visited identically. |
| Catalog.CatalogIsComplete | tif2geojson.py:8-9 | The catalog lists each of the six properties exactly once. No two properties share a key. |
| Extract.FirstLocatedAt | tif2geojson.py:54-75 | The first location whose coordinate record has `tif:Latitude` gives the point, and earlier ones are skipped. The point is `[longitude, latitude, altitude]`, with a missing longitude or altitude read as zero. |
| Extract.FirstLocatedNone | tif2geojson.py:60-75 | The geometry is None exactly when no location has a latitude. |
| Extract.FirstLocatedAppend | tif2geojson.py:60-73 | Once a location with a latitude is found, later locations have no effect. |
| Extract.TitleOf | tif2geojson.py:93-98 | An absent title gives None. A text title is returned as is. A title with attributes gives its `#text`. A repeated title is returned as the list. An empty title, or a title with attributes but no `#text`, gives None. |
| Extract.CategoryOf | tif2geojson.py:85-91 | The result is the classification's `@code` and `#text`. Both are None when there is no classification. |
| Extract.Lower | tif2geojson.py:105-106 | Lower-casing keeps the length and lowers each letter A-Z. |
| Extract.FirstDescriptionAt | tif2geojson.py:100-107 | The `#text` of the first description is chosen if its lower-cased `@xml:lang` is a prefix of the lower-cased language. |
| Extract.FirstDescriptionNone | tif2geojson.py:100-107 | If no description matches, the description is None. |
| Extract.UntaggedMatchesEveryLanguage | tif2geojson.py:105-106 | A description without `@xml:lang` has the tag `''`, which matches every language. |
| Extract.LanguageSelection | tests/test_tif2geojson.py:97-107 | Given `en` and `fr` descriptions, `FR` selects the French text and `EN` the English text. |
| Extract.PersonInAt | tif2geojson.py:119-126 | The first truthy address that lists a person supplies that address's first person. |
| Extract.PersonInNone | tif2geojson.py:119-127 | An address list yields no person exactly when none of its addresses is truthy and lists a person. |
| Extract.FirstPersonAt | tif2geojson.py:113-126 | The first contact that is falsy or of the requested type and yields a person decides. A qualifying contact without a person does not stop the scan. |
| Extract.FalsyContactYieldsNoPerson | tif2geojson.py:114-117 | A falsy contact passes the type test but yields no person, because it has no addresses. |
| Extract.FirstPersonNone | tif2geojson.py:113-127 | No person is found exactly when no contact both qualifies and yields one. |
| Extract.FirstCoordAt | tif2geojson.py:132-136 | The `tif:Coord` of the first mapping medium of the requested type is returned. |
| Extract.FirstCoordNone | tif2geojson.py:138-143 | Without a medium of the requested type the result is None. |
| Corrected.SingleMediumFound | tif2geojson.py:124-136 | With the media normalised to a list, a single website medium is the whole media list, and its `tif:Coord` is the website. |
| Extract.PicturesIn | tif2geojson.py:145-159 | There are no more pictures than multimedia records, and every picture has a truthy URL. |
| Extract.PicturesAppend | tif2geojson.py:148-159 | Filtering commutes with concatenation, so pictures come out in source order. |
| Extract.PicturesExactly | tif2geojson.py:149-158 | Every image record with a truthy URL gives its `{url, copyright}` picture. Every picture comes from such a record. |
| Extract.PropertyKeys | tif2geojson.py:77-83 | A property is a key exactly when it is requested, and all six are keys without a selection. The key names are the catalog names intersected with the requested names, so unknown names never appear. Each key holds its extractor's value. |
| Extract.SelectionExamples | tests/test_tif2geojson.py:81-90 | Selecting `title` gives exactly the key `title`. Selecting only `age` gives an empty mapping. |
| Extract.FeaturesOf | tif2geojson.py:39-43 | There is one feature per entry, in entry order. |
| Extract.UnparsableYieldsNoFeatures | tif2geojson.py:31-38 | Text the parser rejects is read as `{}` and converts to no features. |
| Conversion.Converter.constructor | tif2geojson.py:18-21 | A new converter has empty content, no selection and the language `EN`. |
| Conversion.Converter.Call | tif2geojson.py:23-29 | `Call` stores the content and the selection. It replaces the language only by a non-empty one and keeps the non-empty-language invariant. It returns the collection for the parsed content under the resulting language. |
| Conversion.Converter.ParseContent | tif2geojson.py:31-43 | The loop yields one feature per entry at `listeOI/OIs/tif:OI`, in order, and reads a parse failure as `{}`. |
| Conversion.Converter.ParseEntry | tif2geojson.py:45-52 | A feature is the entry's identifier, geometry and properties. |
| Conversion.Converter.ParseLocation | tif2geojson.py:54-75 | The early-return loop computes the first-located geometry. |
| Conversion.Converter.ParseProperties | tif2geojson.py:77-83 | The loop over the catalog builds exactly the filtered properties mapping. |
| Conversion.Converter.ParseProperty | tif2geojson.py:81-82 | Each catalog property is dispatched to its own extractor. |
| Conversion.Converter.ParseDescription | tif2geojson.py:100-107 | The early-return loop computes the language-matched description. |
| Conversion.Converter.CommunicationMedia | tif2geojson.py:109-127 | The nested contact, address and person loops return the first person's media node as the plain navigation helper gives it (a mapping for a single medium, a list for several), or `[]` if there is no person. |
| Conversion.Converter.FirstCoordOfType | tif2geojson.py:132-143 | The scan returns the `tif:Coord` of the first mapping medium of the given type. |
| Conversion.Converter.ParseWebsite | tif2geojson.py:129-136 | The website is the coordinate of the first `04.02.05` mapping among the elements of the main contact's person's media node. A single medium is a mapping whose keys are visited, so it gives None. |
| Conversion.Converter.ParsePhone | tif2geojson.py:138-143 | The phone is the coordinate of the first `04.02.01` mapping among the elements of the main contact's person's media node, so a single medium gives None. |
| Conversion.Converter.ParsePictures | tif2geojson.py:145-159 | The append loop builds exactly the filtered and mapped picture list. |
| Conversion.ConvertTwice | tif2geojson.py:23-29 | Two calls with the same arguments give identical collections, although the first call may change the stored language. |
| Conversion.LanguageCarriesOver | tif2geojson.py:26 | After a call with `FR`, a call without a language converts with `FR`. |
| Corrected.SingleMediumIsLost | tif2geojson.py:124-136 | As written, a single website medium of the first person is never reported as the website, and the normalised lookup differs whenever the medium has a coordinate. |
| Corrected.LostWebsiteIsNone | tif2geojson.py:77-83 | When the website is missed, a feature that asks only for `website` carries exactly that key with None. |
| Corrected.SingleWebsiteExample | tif2geojson.py:124-136 | A concrete entry with one main contact, one address, one person and one website medium: as written the website is None, and normalised it is the medium's `tif:Coord`. |
| Corrected.OnlySingleMediumDiffers | tif2geojson.py:124-143 | When the media node is not a non-empty mapping (a single medium), including the `{}` of a person without media, the source's lookup and the normalised lookup agree for website and phone. |

## Left out

- The XML parser (`xmltodict.parse` and its `ExpatError`, tif2geojson.py:32-35) is a foreign library. The converter receives it as a function that gives `None` on unparsable text.
- `float(...)` of latitude, longitude and altitude (tif2geojson.py:69-71) is floating point. Coordinates are kept as the raw nodes, or `Zero` for an absent field. The error that non-numeric text would raise is not modelled.
- The `geojson` Point, Feature and FeatureCollection wrappers are foreign. They are plain datatypes here, and no GeoJSON serialisation is modelled.
- Navigation into a node that is not a mapping is read as "absent". Python raises AttributeError when `.get` is applied to a string, a list or None. That includes an empty element used as a contact or location. The largest
  effect is on geometry: line 58 iterates the `tif:Geolocalisations` elements,
  so a container with several `tif:DetailGeolocalisation` gives a list at
  line 61, on which Python raises. The model reports no geometry for that
  location instead.
- Python's `in` on a coordinate record that is a string (a substring test) or a list (an element test) is read as "no latitude".
- Lower-casing covers ASCII letters only. Python's `str.lower` is Unicode-wide.
- `@xml:lang` values are taken to be strings, as the parser produces them. A non-string value would make Python raise.
- The properties mapping is a Dafny `map`, so the order in which keys are inserted is not modelled.
- A property selection is a list of names. Python's `in` on other containers, for example a substring test on a string, is not modelled.
- Extract.MediaCandidates: a media node that is a mapping or a string gives no candidates. Python iterates its keys or characters, which are all strings that the website and phone loops skip, so the result is the same.
- The innermost `for person in persons: return ...` is modelled as a test that the person list is not empty.
- The command-line entry point (tif2geojson.py:184-191) and `setup.py` are I/O and packaging.

## Findings

| source | as written | input that shows it | evidently intended | confidence | as-written member | corrected member |
|---|---|---|---|---|---|---|
| tif2geojson.py:124-143 | The media list is read with `_deep_value`, not `_deep_value_list`. A person with one `tif:DetailMoyenCom` gives a mapping, the website and phone loops iterate over its keys, and nothing is found. | A main contact whose only person has one medium of `@type` `04.02.05` with `tif:Coord` `www.lebellerive.fr/`: the website is None. | Normalise the media to a list like every other repeated tag, so that the single website is reported. | high, not executed | Corrected.SingleMediumIsLost | Corrected.SingleMediumFound |

The converter's model (`Extract.WebsiteOf`, `Extract.PhoneOf` and the
`Converter` methods that compute them) keeps the source's behaviour, so
`Converter.Call` describes the program as it is. The corrected lookup is
`Corrected.NormalisedWebsite` and `Corrected.NormalisedPhone`.
`Corrected.OnlySingleMediumDiffers` shows that the two agree whenever the
media node is not a single medium (a non-empty mapping).
