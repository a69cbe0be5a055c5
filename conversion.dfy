/** The converter object: it keeps the content, the property selection and
    the language of its last call, and turns the parsed document into one
    feature per entry. Each method is proved to compute the function of
    module Extract that specifies it. */
module Conversion {
  import opened Tree
  import opened Catalog
  import opened Extract

  class Converter {
    /** The XML parser: None when the text is not well-formed. */
    const parse: string -> Option<Node>
    var content: string
    var properties: Option<seq<string>>
    var lang: string

    /** The language is never empty: it starts as the default and is only
        replaced by a non-empty one. No other contract relies on it; it
        records an invariant the converter keeps. */
    ghost predicate Valid()
      reads this
    {
      lang != ""
    }

    constructor (parse: string -> Option<Node>)
      ensures Valid()
      ensures this.parse == parse
      ensures content == "" && properties == None && lang == DEFAULT_LANGUAGE
    {
      this.parse := parse;
      content := "";
      properties := None;
      lang := DEFAULT_LANGUAGE;
    }

    /** Converts `content`. A missing or empty `lang` keeps the language of the
        previous call. */
    method Call(content: string, properties: Option<seq<string>>, lang: Option<string>) returns (result: FeatureCollection)
      requires Valid()
      modifies this
      ensures Valid()
      ensures this.content == content && this.properties == properties
      ensures this.lang == if lang.Some? && lang.value != "" then lang.value else old(this.lang)
      ensures result == Convert(parse(content), properties, this.lang)
    {
      this.content := content;
      this.properties := properties;
      this.lang := if lang.Some? && lang.value != "" then lang.value else this.lang;
      var features := ParseContent();
      result := FeatureCollection(features);
    }

    /** One feature per entry of the parsed content, in source order; text
        that does not parse is read as the empty mapping. */
    method ParseContent() returns (features: seq<Feature>)
      ensures features == FeaturesOf(Entries(Document(parse(content))), properties, lang)
    {
      var parsed := parse(content);
      var doc := if parsed.Some? then parsed.value else EMPTY;
      var entries := Items(DeepValueList(doc, ENTRIES_PATH, EMPTY));
      assert entries == Entries(Document(parsed));
      features := [];
      var i := 0;
      while i < |entries|
        invariant 0 <= i <= |entries|
        invariant features == FeaturesOf(entries[..i], properties, lang)
      {
        var feature := ParseEntry(entries[i]);
        assert entries[..i + 1] == entries[..i] + [entries[i]];
        FeaturesOfStep(entries[..i], entries[i], properties, lang);
        features := features + [feature];
        i := i + 1;
      }
      assert entries[..i] == entries;
    }

    method ParseEntry(entry: Node) returns (feature: Feature)
      ensures feature == FeatureOf(entry, properties, lang)
    {
      var id := DeepValue(entry, IDENTIFIER_PATH, EMPTY);
      var geometry := ParseLocation(entry);
      var props := ParseProperties(entry);
      feature := Feature(id, geometry, props);
    }

    /** The point of the first location whose coordinate record has a latitude. */
    method ParseLocation(entry: Node) returns (geometry: Option<Point>)
      ensures geometry == Geometry(entry)
    {
      var locations := Items(DeepValueList(entry, LOCATIONS_PATH, EMPTY));
      var i := 0;
      while i < |locations|
        invariant 0 <= i <= |locations|
        invariant FirstLocated(locations[i..]) == FirstLocated(locations)
      {
        var coords := DeepValue(locations[i], COORDINATES_PATH, EMPTY);
        if HasKey(coords, LATITUDE) {
          return Some(Point([OrdinateOf(coords, LONGITUDE), OrdinateOf(coords, LATITUDE), OrdinateOf(coords, ALTITUDE)]));
        }
        assert locations[i..][1..] == locations[i + 1..];
        i := i + 1;
      }
      return None;
    }

    /** Fills the properties mapping, catalog key by catalog key, with the
        keys the selection asks for. */
    method ParseProperties(entry: Node) returns (props: map<Property, Value>)
      ensures props == PropertiesOf(entry, properties, lang)
    {
      props := map[];
      var i := 0;
      while i < |SUPPORTED_PROPERTIES|
        invariant 0 <= i <= |SUPPORTED_PROPERTIES|
        invariant props == PropertiesAmong(SUPPORTED_PROPERTIES[..i], entry, properties, lang)
      {
        var p := SUPPORTED_PROPERTIES[i];
        PropertiesAmongStep(SUPPORTED_PROPERTIES[..i], p, entry, properties, lang);
        assert SUPPORTED_PROPERTIES[..i + 1] == SUPPORTED_PROPERTIES[..i] + [p];
        if properties.None? || Name(p) in properties.value {
          var value := ParseProperty(p, entry);
          props := props[p := value];
        }
        i := i + 1;
      }
      assert SUPPORTED_PROPERTIES[..i] == SUPPORTED_PROPERTIES;
    }

    /** The extractor for one catalog property. */
    method ParseProperty(p: Property, entry: Node) returns (value: Value)
      ensures value == PropertyValue(p, entry, lang)
    {
      match p
      case Title =>
        value := Text(TitleOf(entry));
      case Description =>
        var description := ParseDescription(entry);
        value := Text(description);
      case Category =>
        value := CategoryOf(entry);
      case Pictures =>
        var pictures := ParsePictures(entry);
        value := PictureList(pictures);
      case Website =>
        var website := ParseWebsite(entry);
        value := Text(website);
      case Phone =>
        var phone := ParsePhone(entry);
        value := Text(phone);
    }

    /** The `#text` of the first description whose language tag is a prefix
        of the converter's language, ignoring case; None if there is none. */
    method ParseDescription(entry: Node) returns (text: Node)
      ensures text == DescriptionOf(entry, lang)
    {
      var descriptions := Items(DeepValueList(entry, DESCRIPTIONS_PATH, Seq([])));
      var i := 0;
      while i < |descriptions|
        invariant 0 <= i <= |descriptions|
        invariant FirstDescription(descriptions[i..], lang) == FirstDescription(descriptions, lang)
      {
        var description := descriptions[i];
        if LanguageMatches(lang, description) {
          return Lookup(description, "#text", Null);
        }
        assert descriptions[i..][1..] == descriptions[i + 1..];
        i := i + 1;
      }
      return Null;
    }

    /** The communication media node of the first person of the first truthy
        address of the first contact that is falsy or of `contactType`,
        continuing with later addresses and contacts while none is found. The
        node is read with the plain navigation helper: a single medium is a
        mapping, several are a list. */
    method CommunicationMedia(entry: Node, contactType: string) returns (media: Node)
      ensures media == Media(entry, contactType)
    {
      var contacts := Items(DeepValueList(entry, CONTACTS_PATH, EMPTY));
      var i := 0;
      while i < |contacts|
        invariant 0 <= i <= |contacts|
        invariant FirstPerson(contacts[i..], contactType) == FirstPerson(contacts, contactType)
      {
        var contact := contacts[i];
        assert contacts[i..][1..] == contacts[i + 1..];
        if ContactQualifies(contact, contactType) {
          var addresses := Items(DeepValueList(contact, ADDRESSES_PATH, EMPTY));
          var j := 0;
          while j < |addresses|
            invariant 0 <= j <= |addresses|
            invariant PersonIn(addresses[j..]) == PersonIn(addresses)
          {
            var address := addresses[j];
            if Truthy(address) {
              var persons := Items(DeepValueList(address, PERSONS_PATH, EMPTY));
              if persons != [] {
                media := DeepValue(persons[0], MEDIA_PATH, EMPTY);
                return;
              }
            }
            assert addresses[j..][1..] == addresses[j + 1..];
            j := j + 1;
          }
        }
        i := i + 1;
      }
      return Seq([]);
    }

    /** `tif:Coord` of the first mapping medium whose `@type` is `code`. */
    method FirstCoordOfType(media: seq<Node>, code: string) returns (coord: Node)
      ensures coord == FirstCoord(media, code)
    {
      var i := 0;
      while i < |media|
        invariant 0 <= i <= |media|
        invariant FirstCoord(media[i..], code) == FirstCoord(media, code)
      {
        var medium := media[i];
        if medium.Map? && Lookup(medium, "@type", Null) == Str(code) {
          return Lookup(medium, "tif:Coord", Null);
        }
        assert media[i..][1..] == media[i + 1..];
        i := i + 1;
      }
      return Null;
    }

    method ParseWebsite(entry: Node) returns (website: Node)
      ensures website == WebsiteOf(entry)
    {
      var media := CommunicationMedia(entry, CODE_MAIN_CONTACT);
      website := FirstCoordOfType(MediaCandidates(media), CODE_WEBSITE);
    }

    method ParsePhone(entry: Node) returns (phone: Node)
      ensures phone == PhoneOf(entry)
    {
      var media := CommunicationMedia(entry, CODE_MAIN_CONTACT);
      phone := FirstCoordOfType(MediaCandidates(media), CODE_PHONE);
    }

    /** One picture per image record with a truthy URL, in source order. */
    method ParsePictures(entry: Node) returns (pictures: seq<Picture>)
      ensures pictures == PicturesOf(entry)
    {
      var multimedia := Items(DeepValueList(entry, MULTIMEDIA_PATH, EMPTY));
      pictures := [];
      var i := 0;
      while i < |multimedia|
        invariant 0 <= i <= |multimedia|
        invariant pictures == PicturesIn(multimedia[..i])
      {
        var medium := multimedia[i];
        PicturesAppend(multimedia[..i], [medium]);
        assert multimedia[..i + 1] == multimedia[..i] + [medium];
        if medium.Map? && Lookup(medium, "@type", Null) == Str(CODE_IMAGE) {
          var url := Lookup(medium, "tif:URL", Null);
          if Truthy(url) {
            pictures := pictures + [Picture(url, Lookup(medium, "tif:Copyright", Str("")))];
          }
        }
        i := i + 1;
      }
      assert multimedia[..i] == multimedia;
    }
  }

  /** Two calls with the same arguments give the same collection, even though
      the first may change the converter's language. */
  method ConvertTwice(converter: Converter, content: string, properties: Option<seq<string>>, lang: Option<string>)
    returns (first: FeatureCollection, second: FeatureCollection)
    requires converter.Valid()
    modifies converter
    ensures converter.Valid()
    ensures first == second
  {
    first := converter.Call(content, properties, lang);
    second := converter.Call(content, properties, lang);
  }

  /** The module-level converter carries the language of one call into the
      next call that does not name one. */
  method LanguageCarriesOver(parse: string -> Option<Node>, content: string) returns (later: FeatureCollection)
    ensures later == Convert(parse(content), None, "FR")
  {
    var converter := new Converter(parse);
    var _ := converter.Call(content, None, Some("FR"));
    later := converter.Call(content, None, None);
  }
}
