/** The converter's constants: the default language, the catalog of output
    properties in the order the converter fills them, and the TourInFrance
    type codes that pick out websites, images, phones and the main contact. */
module Catalog {

  const DEFAULT_LANGUAGE: string := "EN"

  const CODE_WEBSITE: string := "04.02.05"
  const CODE_IMAGE: string := "03.01.01"
  const CODE_PHONE: string := "04.02.01"
  const CODE_MAIN_CONTACT: string := "04.03.13"

  /** The recognised output properties. */
  datatype Property = Title | Description | Category | Pictures | Website | Phone

  /** The key a property has in a feature's properties mapping. */
  function Name(p: Property): string {
    match p
    case Title => "title"
    case Description => "description"
    case Category => "category"
    case Pictures => "pictures"
    case Website => "website"
    case Phone => "phone"
  }

  /** The catalog, in the order the properties mapping is filled. */
  const SUPPORTED_PROPERTIES: seq<Property> := [Title, Description, Category, Pictures, Website, Phone]

  /** The catalog lists every property exactly once, and no two properties
      share a key. */
  lemma CatalogIsComplete()
    ensures forall p: Property :: p in SUPPORTED_PROPERTIES
    ensures |SUPPORTED_PROPERTIES| == 6
    ensures forall i, j :: 0 <= i < j < 6 ==> SUPPORTED_PROPERTIES[i] != SUPPORTED_PROPERTIES[j]
    ensures forall p, q: Property :: Name(p) == Name(q) ==> p == q
  {
    forall p: Property ensures p in SUPPORTED_PROPERTIES {
      match p
      case Title => assert SUPPORTED_PROPERTIES[0] == p;
      case Description => assert SUPPORTED_PROPERTIES[1] == p;
      case Category => assert SUPPORTED_PROPERTIES[2] == p;
      case Pictures => assert SUPPORTED_PROPERTIES[3] == p;
      case Website => assert SUPPORTED_PROPERTIES[4] == p;
      case Phone => assert SUPPORTED_PROPERTIES[5] == p;
    }
  }
}
