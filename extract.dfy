/** What the converter extracts from one TourInFrance entry ("objet
    d'information"), stated as functions over the parsed tree: the identifier,
    the geometry (first location carrying a latitude), the six catalog
    properties, and the features of a whole document. The converter's methods
    are proved to compute exactly these; the lemmas below say what they mean. */
module Extract {
  import opened Tree
  import opened Catalog

  const ENTRIES_PATH: seq<string> := ["listeOI", "OIs", "tif:OI"]
  const IDENTIFIER_PATH: seq<string> := ["tif:DublinCore", "dc:identifier"]
  const LOCATIONS_PATH: seq<string> := ["tif:Geolocalisations"]
  const COORDINATES_PATH: seq<string> :=
    ["tif:DetailGeolocalisation", "tif:Zone", "tif:Points", "tif:DetailPoint", "tif:Coordonnees", "tif:DetailCoordonnees"]
  const CATEGORY_PATH: seq<string> := ["tif:DublinCore", "tif:Classification"]
  const TITLE_PATH: seq<string> := ["tif:DublinCore", "dc:title"]
  const DESCRIPTIONS_PATH: seq<string> := ["tif:DublinCore", "dc:description"]
  const CONTACTS_PATH: seq<string> := ["tif:Contacts", "tif:DetailContact"]
  const ADDRESSES_PATH: seq<string> := ["tif:Adresses", "tif:DetailAdresse"]
  const PERSONS_PATH: seq<string> := ["tif:Personnes", "tif:DetailPersonne"]
  const MEDIA_PATH: seq<string> := ["tif:MoyensCommunications", "tif:DetailMoyenCom"]
  const MULTIMEDIA_PATH: seq<string> := ["tif:Multimedia", "tif:DetailMultimedia"]

  const LATITUDE: string := "tif:Latitude"
  const LONGITUDE: string := "tif:Longitude"
  const ALTITUDE: string := "tif:Altitude"

  /** One coordinate as the feed gives it: the raw node of the field, or the
      zero that stands in for an absent field. */
  datatype Ordinate = Raw(text: Node) | Zero

  /** A GeoJSON point; `coordinates` is [longitude, latitude, altitude]. */
  datatype Point = Point(coordinates: seq<Ordinate>)

  datatype Picture = Picture(url: Node, copyright: Node)

  /** The value of one output property. `Null` stands for None. */
  datatype Value =
    | Text(node: Node)                       // title, description, website, phone
    | Classification(id: Node, text: Node)   // category: its id and label
    | PictureList(pictures: seq<Picture>)    // pictures

  datatype Feature = Feature(id: Node, geometry: Option<Point>, properties: map<Property, Value>)

  datatype FeatureCollection = FeatureCollection(features: seq<Feature>)

  // ---------------------------------------------------------------- entries

  /** The tree a conversion works on: the parsed document, or the empty
      mapping when the text could not be parsed. */
  function Document(parsed: Option<Node>): Node {
    parsed.GetOr(EMPTY)
  }

  /** The entries at `listeOI/OIs/tif:OI`, a single entry counting as a list of one. */
  function Entries(doc: Node): seq<Node> {
    Items(DeepValueList(doc, ENTRIES_PATH, EMPTY))
  }

  function EntryId(entry: Node): Node {
    Resolve(entry, IDENTIFIER_PATH, EMPTY)
  }

  // --------------------------------------------------------------- geometry

  function Locations(entry: Node): seq<Node> {
    Items(DeepValueList(entry, LOCATIONS_PATH, EMPTY))
  }

  /** The coordinate record six levels below a candidate location. */
  function CoordinateRecord(location: Node): Node {
    Resolve(location, COORDINATES_PATH, EMPTY)
  }

  predicate HasLatitude(location: Node) {
    HasKey(CoordinateRecord(location), LATITUDE)
  }

  /** `coords.get(key, 0)`. */
  function OrdinateOf(coords: Node, key: string): Ordinate {
    if HasKey(coords, key) then Raw(coords.children[key]) else Zero
  }

  function PointOf(coords: Node): Point {
    Point([OrdinateOf(coords, LONGITUDE), OrdinateOf(coords, LATITUDE), OrdinateOf(coords, ALTITUDE)])
  }

  /** The point of the first location whose coordinate record has a latitude. */
  function FirstLocated(locations: seq<Node>): Option<Point> {
    if locations == [] then None
    else if HasLatitude(locations[0]) then Some(PointOf(CoordinateRecord(locations[0])))
    else FirstLocated(locations[1..])
  }

  function Geometry(entry: Node): Option<Point> {
    FirstLocated(Locations(entry))
  }

  /** The first location with a latitude gives the geometry: locations before
      it are skipped, and the point is [longitude, latitude, altitude] with an
      absent longitude or altitude read as zero. */
  lemma {:induction false} FirstLocatedAt(locations: seq<Node>, i: nat)
    requires i < |locations| && HasLatitude(locations[i])
    requires forall j :: 0 <= j < i ==> !HasLatitude(locations[j])
    ensures FirstLocated(locations) ==
              Some(Point([OrdinateOf(CoordinateRecord(locations[i]), LONGITUDE),
                          Raw(CoordinateRecord(locations[i]).children[LATITUDE]),
                          OrdinateOf(CoordinateRecord(locations[i]), ALTITUDE)]))
  {
    if i > 0 {
      FirstLocatedAt(locations[1..], i - 1);
    }
  }

  /** There is no geometry exactly when no location has a latitude. */
  lemma {:induction false} FirstLocatedNone(locations: seq<Node>)
    ensures FirstLocated(locations) == None <==> forall i :: 0 <= i < |locations| ==> !HasLatitude(locations[i])
  {
    if locations != [] {
      FirstLocatedNone(locations[1..]);
      assert forall i :: 1 <= i < |locations| ==> locations[i] == locations[1..][i - 1];
    }
  }

  /** Once a location with a latitude is found, later locations are never
      looked at. */
  lemma {:induction false} FirstLocatedAppend(first: seq<Node>, rest: seq<Node>)
    ensures FirstLocated(first + rest) ==
              if FirstLocated(first).Some? then FirstLocated(first) else FirstLocated(rest)
  {
    if first != [] {
      assert (first + rest)[1..] == first[1..] + rest;
      FirstLocatedAppend(first[1..], rest);
    } else {
      assert first + rest == rest;
    }
  }

  // ------------------------------------------------------- title, category

  /** `_parse_property_title`: the title text; for a title carrying attributes
      such as `xml:lang`, its `#text`; a repeated title is returned as the
      list; an empty title, or one with attributes but no text, gives None. */
  function TitleOf(entry: Node): (r: Node)
    ensures !PathDefined(entry, TITLE_PATH) ==> r == Null
    ensures PathDefined(entry, TITLE_PATH) && Follow(entry, TITLE_PATH).Str? ==> r == Follow(entry, TITLE_PATH)
    ensures PathDefined(entry, TITLE_PATH) && HasKey(Follow(entry, TITLE_PATH), "#text") ==>
              r == Follow(entry, TITLE_PATH).children["#text"]
    ensures PathDefined(entry, TITLE_PATH) && Follow(entry, TITLE_PATH).Seq? && Follow(entry, TITLE_PATH).items != [] ==>
              r == Follow(entry, TITLE_PATH)
    ensures (PathDefined(entry, TITLE_PATH) && !Follow(entry, TITLE_PATH).Str? && !HasKey(Follow(entry, TITLE_PATH), "#text") &&
             !(Follow(entry, TITLE_PATH).Seq? && Follow(entry, TITLE_PATH).items != [])) ==> r == Null
  {
    var title := Resolve(entry, TITLE_PATH, EMPTY);
    if title.Map? then Lookup(title, "#text", Null) else title
  }

  /** `_parse_property_category`: the classification's code and label, both
      None when the entry has no classification. */
  function CategoryOf(entry: Node): (r: Value)
    ensures r.Classification?
    ensures !PathDefined(entry, CATEGORY_PATH) ==> r == Classification(Null, Null)
    ensures PathDefined(entry, CATEGORY_PATH) ==>
              r == Classification(Lookup(Follow(entry, CATEGORY_PATH), "@code", Null),
                                  Lookup(Follow(entry, CATEGORY_PATH), "#text", Null))
  {
    var category := Resolve(entry, CATEGORY_PATH, EMPTY);
    Classification(Lookup(category, "@code", Null), Lookup(category, "#text", Null))
  }

  // ------------------------------------------------------------ description

  function LowerChar(c: char): char {
    if 'A' <= c <= 'Z' then (c as int + 32) as char else c
  }

  /** `str.lower()` on ASCII letters. */
  function Lower(s: string): (r: string)
    ensures |r| == |s|
    ensures forall i :: 0 <= i < |s| ==> r[i] == LowerChar(s[i])
  {
    if s == [] then [] else [LowerChar(s[0])] + Lower(s[1..])
  }

  function Descriptions(entry: Node): seq<Node> {
    Items(DeepValueList(entry, DESCRIPTIONS_PATH, Seq([])))
  }

  /** The lower-cased `@xml:lang` of a description, `''` when it has none. */
  function LanguageTag(description: Node): string {
    var tag := Lookup(description, "@xml:lang", Str(""));
    Lower(if tag.Str? then tag.text else "")
  }

  /** The description's language tag is a prefix of the requested language,
      both compared in lower case. */
  predicate LanguageMatches(lang: string, description: Node) {
    LanguageTag(description) <= Lower(lang)
  }

  function FirstDescription(descriptions: seq<Node>, lang: string): Node {
    if descriptions == [] then Null
    else if LanguageMatches(lang, descriptions[0]) then Lookup(descriptions[0], "#text", Null)
    else FirstDescription(descriptions[1..], lang)
  }

  function DescriptionOf(entry: Node, lang: string): Node {
    FirstDescription(Descriptions(entry), lang)
  }

  /** The text of the first description in a matching language is chosen. */
  lemma {:induction false} FirstDescriptionAt(descriptions: seq<Node>, lang: string, i: nat)
    requires i < |descriptions| && LanguageMatches(lang, descriptions[i])
    requires forall j :: 0 <= j < i ==> !LanguageMatches(lang, descriptions[j])
    ensures FirstDescription(descriptions, lang) == Lookup(descriptions[i], "#text", Null)
  {
    if i > 0 {
      FirstDescriptionAt(descriptions[1..], lang, i - 1);
    }
  }

  /** With no description in a matching language the result is None. */
  lemma {:induction false} FirstDescriptionNone(descriptions: seq<Node>, lang: string)
    requires forall i :: 0 <= i < |descriptions| ==> !LanguageMatches(lang, descriptions[i])
    ensures FirstDescription(descriptions, lang) == Null
  {
    if descriptions != [] {
      FirstDescriptionNone(descriptions[1..], lang);
    }
  }

  /** A description without `@xml:lang` matches every language. */
  lemma UntaggedMatchesEveryLanguage(description: Node, lang: string)
    requires !HasKey(description, "@xml:lang")
    ensures LanguageMatches(lang, description)
  {
    assert Lower("") == "";
  }

  /** English and French descriptions: "FR" picks the French one and "EN" the
      English one, whatever their texts. */
  lemma LanguageSelection(english: Node, french: Node)
    ensures var descriptions := [Map(map["@xml:lang" := Str("en"), "#text" := english]),
                                 Map(map["@xml:lang" := Str("fr"), "#text" := french])];
            FirstDescription(descriptions, "FR") == french && FirstDescription(descriptions, "EN") == english
  {
    var descriptions := [Map(map["@xml:lang" := Str("en"), "#text" := english]),
                         Map(map["@xml:lang" := Str("fr"), "#text" := french])];
    assert LanguageTag(descriptions[0]) == Lower("en") == "en";
    assert LanguageTag(descriptions[1]) == Lower("fr") == "fr";
    assert Lower("FR") == "fr" && Lower("EN") == "en";
    assert !LanguageMatches("FR", descriptions[0]) && LanguageMatches("FR", descriptions[1]);
    assert LanguageMatches("EN", descriptions[0]);
    FirstDescriptionAt(descriptions, "FR", 1);
    FirstDescriptionAt(descriptions, "EN", 0);
  }

  // ------------------------------------------------ website, phone (media)

  function Contacts(entry: Node): seq<Node> {
    Items(DeepValueList(entry, CONTACTS_PATH, EMPTY))
  }

  function Addresses(contact: Node): seq<Node> {
    Items(DeepValueList(contact, ADDRESSES_PATH, EMPTY))
  }

  function Persons(address: Node): seq<Node> {
    Items(DeepValueList(address, PERSONS_PATH, EMPTY))
  }

  /** A contact is examined when it is falsy or has the requested `@type`. */
  predicate ContactQualifies(contact: Node, contactType: string) {
    !Truthy(contact) || Lookup(contact, "@type", Null) == Str(contactType)
  }

  /** An address is used when it is truthy and lists at least one person. */
  predicate YieldsPerson(address: Node) {
    Truthy(address) && Persons(address) != []
  }

  /** The first person of the first address that yields one. */
  function PersonIn(addresses: seq<Node>): Option<Node> {
    if addresses == [] then None
    else if YieldsPerson(addresses[0]) then Some(Persons(addresses[0])[0])
    else PersonIn(addresses[1..])
  }

  predicate ContactYieldsPerson(contact: Node, contactType: string) {
    ContactQualifies(contact, contactType) && PersonIn(Addresses(contact)).Some?
  }

  /** A falsy contact passes the type test but has no addresses, so it never
      supplies a person. */
  lemma FalsyContactYieldsNoPerson(contact: Node, contactType: string)
    requires !Truthy(contact)
    ensures ContactQualifies(contact, contactType)
    ensures !ContactYieldsPerson(contact, contactType)
  {
    assert !PathDefined(contact, ADDRESSES_PATH);
  }

  /** The person whose communication media are used: the scan goes through
      contacts, their addresses and their persons in order, and stops at the
      first person of a truthy address of a qualifying contact. */
  function FirstPerson(contacts: seq<Node>, contactType: string): Option<Node> {
    if contacts == [] then None
    else if ContactYieldsPerson(contacts[0], contactType) then PersonIn(Addresses(contacts[0]))
    else FirstPerson(contacts[1..], contactType)
  }

  /** `_parse_communication_media`: the communication media node of the first
      person, read with the plain navigation helper, so a single medium is a
      mapping and several are a list; `[]` when no person is found. */
  function Media(entry: Node, contactType: string): Node {
    match FirstPerson(Contacts(entry), contactType)
    case None => Seq([])
    case Some(person) => Resolve(person, MEDIA_PATH, EMPTY)
  }

  predicate IsMediumOfType(medium: Node, code: string) {
    medium.Map? && Lookup(medium, "@type", Null) == Str(code)
  }

  /** `tif:Coord` of the first mapping medium of the given type, None if none. */
  function FirstCoord(media: seq<Node>, code: string): Node {
    if media == [] then Null
    else if IsMediumOfType(media[0], code) then Lookup(media[0], "tif:Coord", Null)
    else FirstCoord(media[1..], code)
  }

  /** The elements the website and phone loops look at in the media node.
      Iterating a mapping visits its keys and iterating a string its
      characters, all strings, which the loops skip as they are not mappings;
      only a list offers them candidate media. */
  function MediaCandidates(media: Node): seq<Node> {
    if media.Seq? then media.items else []
  }

  /** `_parse_property_website`. */
  function WebsiteOf(entry: Node): Node {
    FirstCoord(MediaCandidates(Media(entry, CODE_MAIN_CONTACT)), CODE_WEBSITE)
  }

  /** `_parse_property_phone`. */
  function PhoneOf(entry: Node): Node {
    FirstCoord(MediaCandidates(Media(entry, CODE_MAIN_CONTACT)), CODE_PHONE)
  }

  /** The first truthy address that lists a person supplies that person. */
  lemma {:induction false} PersonInAt(addresses: seq<Node>, j: nat)
    requires j < |addresses| && YieldsPerson(addresses[j])
    requires forall k :: 0 <= k < j ==> !YieldsPerson(addresses[k])
    ensures PersonIn(addresses) == Some(Persons(addresses[j])[0])
  {
    if j > 0 {
      PersonInAt(addresses[1..], j - 1);
    }
  }

  lemma {:induction false} PersonInNone(addresses: seq<Node>)
    ensures PersonIn(addresses) == None <==> forall j :: 0 <= j < |addresses| ==> !YieldsPerson(addresses[j])
  {
    if addresses != [] {
      PersonInNone(addresses[1..]);
      assert forall j :: 1 <= j < |addresses| ==> addresses[j] == addresses[1..][j - 1];
    }
  }

  /** The first qualifying contact that yields a person decides; a qualifying
      contact without one does not stop the scan. */
  lemma {:induction false} FirstPersonAt(contacts: seq<Node>, contactType: string, i: nat)
    requires i < |contacts| && ContactYieldsPerson(contacts[i], contactType)
    requires forall k :: 0 <= k < i ==> !ContactYieldsPerson(contacts[k], contactType)
    ensures FirstPerson(contacts, contactType) == PersonIn(Addresses(contacts[i]))
    ensures FirstPerson(contacts, contactType).Some?
  {
    if i > 0 {
      FirstPersonAt(contacts[1..], contactType, i - 1);
    }
  }

  lemma {:induction false} FirstPersonNone(contacts: seq<Node>, contactType: string)
    ensures FirstPerson(contacts, contactType) == None <==>
              forall i :: 0 <= i < |contacts| ==> !ContactYieldsPerson(contacts[i], contactType)
  {
    if contacts != [] {
      FirstPersonNone(contacts[1..], contactType);
      assert forall i :: 1 <= i < |contacts| ==> contacts[i] == contacts[1..][i - 1];
    }
  }

  /** The first medium of the requested type supplies its `tif:Coord`. */
  lemma {:induction false} FirstCoordAt(media: seq<Node>, code: string, i: nat)
    requires i < |media| && IsMediumOfType(media[i], code)
    requires forall j :: 0 <= j < i ==> !IsMediumOfType(media[j], code)
    ensures FirstCoord(media, code) == Lookup(media[i], "tif:Coord", Null)
  {
    if i > 0 {
      FirstCoordAt(media[1..], code, i - 1);
    }
  }

  lemma {:induction false} FirstCoordNone(media: seq<Node>, code: string)
    requires forall i :: 0 <= i < |media| ==> !IsMediumOfType(media[i], code)
    ensures FirstCoord(media, code) == Null
  {
    if media != [] {
      FirstCoordNone(media[1..], code);
    }
  }

  // --------------------------------------------------------------- pictures

  function Multimedia(entry: Node): seq<Node> {
    Items(DeepValueList(entry, MULTIMEDIA_PATH, EMPTY))
  }

  /** A multimedia record is a picture when it is a mapping of the image type
      with a truthy `tif:URL`. */
  predicate IsPicture(medium: Node) {
    medium.Map? && Lookup(medium, "@type", Null) == Str(CODE_IMAGE) && Truthy(Lookup(medium, "tif:URL", Null))
  }

  /** The picture of a record; the copyright defaults to the empty string. */
  function PictureOf(medium: Node): Picture {
    Picture(Lookup(medium, "tif:URL", Null), Lookup(medium, "tif:Copyright", Str("")))
  }

  /** One picture per picture record, in source order. */
  function PicturesIn(multimedia: seq<Node>): (r: seq<Picture>)
    ensures |r| <= |multimedia|
    ensures forall k :: 0 <= k < |r| ==> Truthy(r[k].url)
  {
    if multimedia == [] then []
    else (if IsPicture(multimedia[0]) then [PictureOf(multimedia[0])] else []) + PicturesIn(multimedia[1..])
  }

  function PicturesOf(entry: Node): seq<Picture> {
    PicturesIn(Multimedia(entry))
  }

  /** Filtering commutes with concatenation, so the order of the records is
      the order of the pictures. */
  lemma {:induction false} PicturesAppend(first: seq<Node>, rest: seq<Node>)
    ensures PicturesIn(first + rest) == PicturesIn(first) + PicturesIn(rest)
  {
    if first == [] {
      assert first + rest == rest;
    } else {
      assert (first + rest)[1..] == first[1..] + rest;
      PicturesAppend(first[1..], rest);
    }
  }

  /** The picture was made from one of the picture records. */
  predicate MadeFromRecord(multimedia: seq<Node>, picture: Picture) {
    exists i :: 0 <= i < |multimedia| && IsPicture(multimedia[i]) && picture == PictureOf(multimedia[i])
  }

  /** Every picture record gives a picture, and every picture comes from a
      picture record. */
  lemma {:induction false} PicturesExactly(multimedia: seq<Node>)
    ensures forall i :: 0 <= i < |multimedia| && IsPicture(multimedia[i]) ==> PictureOf(multimedia[i]) in PicturesIn(multimedia)
    ensures forall picture :: picture in PicturesIn(multimedia) ==> MadeFromRecord(multimedia, picture)
  {
    if multimedia != [] {
      PicturesExactly(multimedia[1..]);
      var head := if IsPicture(multimedia[0]) then [PictureOf(multimedia[0])] else [];
      var tail := PicturesIn(multimedia[1..]);
      assert PicturesIn(multimedia) == head + tail;
      forall i | 1 <= i < |multimedia| && IsPicture(multimedia[i])
        ensures PictureOf(multimedia[i]) in PicturesIn(multimedia)
      {
        assert multimedia[i] == multimedia[1..][i - 1];
      }
      forall picture | picture in PicturesIn(multimedia)
        ensures MadeFromRecord(multimedia, picture)
      {
        if picture in head {
          assert IsPicture(multimedia[0]) && picture == PictureOf(multimedia[0]);
        } else {
          assert picture in tail && MadeFromRecord(multimedia[1..], picture);
          var i :| 0 <= i < |multimedia[1..]| && IsPicture(multimedia[1..][i]) && picture == PictureOf(multimedia[1..][i]);
          assert multimedia[1..][i] == multimedia[i + 1];
        }
      }
    }
  }

  // ------------------------------------------------------------- properties

  /** A catalog property is computed when no selection was given or when its
      key is among the selected names. */
  predicate Requested(p: Property, properties: Option<seq<string>>) {
    properties.None? || Name(p) in properties.value
  }

  /** The per-key extractor chosen for a property. */
  function PropertyValue(p: Property, entry: Node, lang: string): Value {
    match p
    case Title => Text(TitleOf(entry))
    case Description => Text(DescriptionOf(entry, lang))
    case Category => CategoryOf(entry)
    case Pictures => PictureList(PicturesOf(entry))
    case Website => Text(WebsiteOf(entry))
    case Phone => Text(PhoneOf(entry))
  }

  /** The properties mapping after visiting the given part of the catalog. */
  function PropertiesAmong(catalog: seq<Property>, entry: Node, properties: Option<seq<string>>, lang: string): map<Property, Value> {
    map p | p in catalog && Requested(p, properties) :: PropertyValue(p, entry, lang)
  }

  function PropertiesOf(entry: Node, properties: Option<seq<string>>, lang: string): map<Property, Value> {
    PropertiesAmong(SUPPORTED_PROPERTIES, entry, properties, lang)
  }

  /** Visiting one more catalog property adds it exactly when it is requested. */
  lemma PropertiesAmongStep(catalog: seq<Property>, p: Property, entry: Node, properties: Option<seq<string>>, lang: string)
    ensures PropertiesAmong(catalog + [p], entry, properties, lang) ==
              if Requested(p, properties)
              then PropertiesAmong(catalog, entry, properties, lang)[p := PropertyValue(p, entry, lang)]
              else PropertiesAmong(catalog, entry, properties, lang)
  {
  }

  /** The key set is the catalog restricted to the selection (all six keys
      without a selection); selected names outside the catalog never appear,
      and every present key holds its extractor's value. */
  lemma PropertyKeys(entry: Node, properties: Option<seq<string>>, lang: string)
    ensures forall p :: p in PropertiesOf(entry, properties, lang) <==> Requested(p, properties)
    ensures properties.None? ==> forall p: Property :: p in PropertiesOf(entry, properties, lang)
    ensures properties.Some? ==>
              (set p | p in PropertiesOf(entry, properties, lang) :: Name(p)) ==
              (set p | p in SUPPORTED_PROPERTIES :: Name(p)) * (set s | s in properties.value)
    ensures forall p :: p in PropertiesOf(entry, properties, lang) ==>
              PropertiesOf(entry, properties, lang)[p] == PropertyValue(p, entry, lang)
  {
    CatalogIsComplete();
  }

  /** Selecting only the title gives a mapping with the single key `title`;
      selecting only an unknown name gives an empty mapping. */
  lemma SelectionExamples(entry: Node, lang: string)
    ensures PropertiesOf(entry, Some(["title"]), lang).Keys == {Title}
    ensures PropertiesOf(entry, Some(["age"]), lang) == map[]
  {
    CatalogIsComplete();
    PropertyKeys(entry, Some(["title"]), lang);
    PropertyKeys(entry, Some(["age"]), lang);
  }

  // --------------------------------------------------------------- features

  function FeatureOf(entry: Node, properties: Option<seq<string>>, lang: string): Feature {
    Feature(EntryId(entry), Geometry(entry), PropertiesOf(entry, properties, lang))
  }

  /** One feature per entry, in the entries' order. */
  function FeaturesOf(entries: seq<Node>, properties: Option<seq<string>>, lang: string): (r: seq<Feature>)
    ensures |r| == |entries|
    ensures forall i :: 0 <= i < |entries| ==> r[i] == FeatureOf(entries[i], properties, lang)
  {
    if entries == [] then [] else [FeatureOf(entries[0], properties, lang)] + FeaturesOf(entries[1..], properties, lang)
  }

  /** Converting one more entry appends its feature. */
  lemma {:induction false} FeaturesOfStep(entries: seq<Node>, entry: Node, properties: Option<seq<string>>, lang: string)
    ensures FeaturesOf(entries + [entry], properties, lang) == FeaturesOf(entries, properties, lang) + [FeatureOf(entry, properties, lang)]
  {
    var r := FeaturesOf(entries + [entry], properties, lang);
    var s := FeaturesOf(entries, properties, lang) + [FeatureOf(entry, properties, lang)];
    assert |r| == |s|;
    forall i | 0 <= i < |r| ensures r[i] == s[i] {
      if i < |entries| {
        assert (entries + [entry])[i] == entries[i];
      }
    }
  }

  /** The feature collection for a parse result. */
  function Convert(parsed: Option<Node>, properties: Option<seq<string>>, lang: string): FeatureCollection {
    FeatureCollection(FeaturesOf(Entries(Document(parsed)), properties, lang))
  }

  /** Text that cannot be parsed converts to a collection without features. */
  lemma UnparsableYieldsNoFeatures(properties: Option<seq<string>>, lang: string)
    ensures Convert(None, properties, lang).features == []
  {
    assert !PathDefined(EMPTY, ENTRIES_PATH);
  }
}
