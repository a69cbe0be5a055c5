/** The website and phone lookups as they are evidently meant to work: the
    communication media of the first person normalised to a list, like every
    other repeated tag. The converter (module Extract, and the class that
    computes it) reads the media with the plain navigation helper instead, so
    a person with a single medium yields a mapping and its website or phone
    is not found; the lemmas here show where the two differ and that they
    agree everywhere else. */
module Corrected {
  import opened Tree
  import opened Catalog
  import opened Extract

  /** The communication media of the first person as a list; `[]` when no
      person is found. */
  function MediaList(entry: Node, contactType: string): seq<Node> {
    match FirstPerson(Contacts(entry), contactType)
    case None => []
    case Some(person) => Items(DeepValueList(person, MEDIA_PATH, EMPTY))
  }

  function NormalisedWebsite(entry: Node): Node {
    FirstCoord(MediaList(entry, CODE_MAIN_CONTACT), CODE_WEBSITE)
  }

  function NormalisedPhone(entry: Node): Node {
    FirstCoord(MediaList(entry, CODE_MAIN_CONTACT), CODE_PHONE)
  }

  /** A first person with a single communication medium, which the parser
      gives as a mapping rather than a list, has that medium as its whole
      media list, so a single website medium is found. */
  lemma SingleMediumFound(entry: Node, person: Node)
    requires FirstPerson(Contacts(entry), CODE_MAIN_CONTACT) == Some(person)
    requires PathDefined(person, MEDIA_PATH) && IsMediumOfType(Follow(person, MEDIA_PATH), CODE_WEBSITE)
    ensures MediaList(entry, CODE_MAIN_CONTACT) == [Follow(person, MEDIA_PATH)]
    ensures NormalisedWebsite(entry) == Lookup(Follow(person, MEDIA_PATH), "tif:Coord", Null)
  {
    var medium := Follow(person, MEDIA_PATH);
    assert Truthy(medium) by {
      assert "@type" in medium.children;
    }
    FirstCoordAt([medium], CODE_WEBSITE, 0);
  }

  /** As the converter is written, a single website medium is never found,
      and whenever it has a coordinate the corrected lookup reports it. */
  lemma SingleMediumIsLost(entry: Node, person: Node)
    requires FirstPerson(Contacts(entry), CODE_MAIN_CONTACT) == Some(person)
    requires PathDefined(person, MEDIA_PATH) && IsMediumOfType(Follow(person, MEDIA_PATH), CODE_WEBSITE)
    ensures WebsiteOf(entry) == Null
    ensures Lookup(Follow(person, MEDIA_PATH), "tif:Coord", Null) != Null ==> WebsiteOf(entry) != NormalisedWebsite(entry)
  {
    var medium := Follow(person, MEDIA_PATH);
    assert "@type" in medium.children;
    SingleMediumFound(entry, person);
  }

  /** An entry whose main contact's only person lists a single website:
      the converter reports no website, the corrected lookup reports it. */
  lemma SingleWebsiteExample()
    ensures var medium := Map(map["@type" := Str(CODE_WEBSITE), "tif:Coord" := Str("www.lebellerive.fr/")]);
            var person := Map(map["tif:MoyensCommunications" := Map(map["tif:DetailMoyenCom" := medium])]);
            var address := Map(map["tif:Personnes" := Map(map["tif:DetailPersonne" := person])]);
            var contact := Map(map["@type" := Str(CODE_MAIN_CONTACT), "tif:Adresses" := Map(map["tif:DetailAdresse" := address])]);
            var entry := Map(map["tif:Contacts" := Map(map["tif:DetailContact" := contact])]);
            WebsiteOf(entry) == Null && NormalisedWebsite(entry) == Str("www.lebellerive.fr/")
  {
    var medium := Map(map["@type" := Str(CODE_WEBSITE), "tif:Coord" := Str("www.lebellerive.fr/")]);
    var person := Map(map["tif:MoyensCommunications" := Map(map["tif:DetailMoyenCom" := medium])]);
    var address := Map(map["tif:Personnes" := Map(map["tif:DetailPersonne" := person])]);
    var contact := Map(map["@type" := Str(CODE_MAIN_CONTACT), "tif:Adresses" := Map(map["tif:DetailAdresse" := address])]);
    var entry := Map(map["tif:Contacts" := Map(map["tif:DetailContact" := contact])]);
    FollowTwo(entry, "tif:Contacts", "tif:DetailContact");
    FollowTwo(contact, "tif:Adresses", "tif:DetailAdresse");
    FollowTwo(address, "tif:Personnes", "tif:DetailPersonne");
    FollowTwo(person, "tif:MoyensCommunications", "tif:DetailMoyenCom");
    assert "@type" in contact.children && "@type" in medium.children;
    assert Contacts(entry) == [contact];
    assert Addresses(contact) == [address];
    assert Persons(address) == [person];
    assert PersonIn([address]) == Some(person);
    assert FirstPerson([contact], CODE_MAIN_CONTACT) == Some(person);
    SingleMediumIsLost(entry, person);
    SingleMediumFound(entry, person);
  }

  /** Whenever the converter misses the website, a feature asked for its
      website carries None under that key, the only key. */
  lemma LostWebsiteIsNone(entry: Node, lang: string)
    requires WebsiteOf(entry) == Null
    ensures PropertiesOf(entry, Some(["website"]), lang) == map[Property.Website := Text(Null)]
  {
    CatalogIsComplete();
    PropertyKeys(entry, Some(["website"]), lang);
    assert PropertiesOf(entry, Some(["website"]), lang).Keys == {Property.Website};
  }

  /** Whenever the media node is not a single medium (a non-empty mapping),
      the converter and the corrected lookup agree. */
  lemma OnlySingleMediumDiffers(entry: Node)
    requires !(Media(entry, CODE_MAIN_CONTACT).Map? && Truthy(Media(entry, CODE_MAIN_CONTACT)))
    ensures WebsiteOf(entry) == NormalisedWebsite(entry)
    ensures PhoneOf(entry) == NormalisedPhone(entry)
  {
    match FirstPerson(Contacts(entry), CODE_MAIN_CONTACT)
    case None =>
    case Some(person) =>
      var media := Resolve(person, MEDIA_PATH, EMPTY);
      if !media.Seq? && Truthy(media) {
        assert MediaList(entry, CODE_MAIN_CONTACT) == [media];
        assert !IsMediumOfType(media, CODE_WEBSITE) && !IsMediumOfType(media, CODE_PHONE);
        FirstCoordNone([media], CODE_WEBSITE);
        FirstCoordNone([media], CODE_PHONE);
      }
  }
}
