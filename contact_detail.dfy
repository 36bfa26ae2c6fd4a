/**
  The display rules of the contact detail view: the full five-part address
  and when its section is shown, when the social-media section is shown, and
  the initials (the same rule as the card's).
 */
module ContactDetail {
  import opened Wrappers
  import opened Js
  import opened Seqs
  import opened ContactCard
  import ContactForm
  import ContactService
  import Sdk

  /** The address parts in the order the view joins them. */
  const AddressParts: seq<string> := ["street", "city", "state", "zipCode", "country"]

  /** The detail view's `formatAddress`. */
  function FormatFullAddress(address: JsValue): string {
    FormatParts(address, AddressParts)
  }

  /** `contact.address && formatAddress(contact.address)` */
  predicate AddressSectionShown(address: JsValue) {
    Truthy(address) && FormatFullAddress(address) != ""
  }

  /** `contact.socialMedia && Object.values(contact.socialMedia).some(url => url)` */
  predicate SocialSectionShown(socialMedia: JsValue) {
    Truthy(socialMedia) && exists k :: k in OwnProps(socialMedia) && Truthy(OwnProps(socialMedia)[k])
  }

  /** An address of string (or absent) parts is hidden exactly when it is
      falsy or all five parts are empty. */
  lemma AddressHiddenIff(address: JsValue)
    requires forall k :: k in AddressParts ==> Get(OwnProps(address), k).Str? || Nullish(Get(OwnProps(address), k))
    ensures !AddressSectionShown(address) <==>
              !Truthy(address) || forall k :: k in AddressParts ==> !Truthy(Get(OwnProps(address), k))
  {
    FormatPartsEmptyIff(address, AddressParts);
  }

  /** When every listed part is a non-empty string, all of them are joined by
      ", " in the listed order. */
  lemma AllPartsGiven(address: JsValue, keys: seq<string>)
    requires Truthy(address)
    requires forall k :: k in keys ==> Get(OwnProps(address), k).Str? && Get(OwnProps(address), k).s != ""
    ensures FormatParts(address, keys) ==
              Join(seq(|keys|, i requires 0 <= i < |keys| => Get(OwnProps(address), keys[i]).s), ", ")
  {
    var parts := PartsOf(OwnProps(address), keys);
    forall i | 0 <= i < |parts| ensures Truthy(parts[i]) {
      assert keys[i] in keys;
    }
    FilterAll(parts, Truthy);
    assert Texts(parts) == seq(|keys|, i requires 0 <= i < |keys| => Get(OwnProps(address), keys[i]).s);
  }

  /** The address of an empty contact form shows no section, and neither does
      its empty social media. */
  lemma EmptyFormShowsNothing()
    ensures !AddressSectionShown(Obj(ContactForm.EmptyAddress))
    ensures !SocialSectionShown(Obj(ContactForm.EmptySocialMedia))
  {
    FormatPartsEmptyIff(Obj(ContactForm.EmptyAddress), AddressParts);
    SocialSectionShownIff("", "", "", "");
  }

  /** A social-media object holding the form's four links as strings is
      shown exactly when one of the links is not empty. */
  lemma SocialSectionShownIff(linkedin: string, twitter: string, facebook: string, instagram: string)
    ensures var links := map["linkedin" := Str(linkedin), "twitter" := Str(twitter),
                             "facebook" := Str(facebook), "instagram" := Str(instagram)];
      SocialSectionShown(Obj(links)) <==> linkedin != "" || twitter != "" || facebook != "" || instagram != ""
  {
    var links := map["linkedin" := Str(linkedin), "twitter" := Str(twitter),
                     "facebook" := Str(facebook), "instagram" := Str(instagram)];
    assert OwnProps(Obj(links)) == links;
    if linkedin != "" {
      assert Truthy(links["linkedin"]);
    } else if twitter != "" {
      assert Truthy(links["twitter"]);
    } else if facebook != "" {
      assert Truthy(links["facebook"]);
    } else if instagram != "" {
      assert Truthy(links["instagram"]);
    }
  }

  /** The card and the detail view read `firstName` and `lastName`, while the
      contact service hands back records keyed by column (`first_name_c`, …):
      a decoded record whose source had no such keys shows no initials. */
  lemma DecodedContactHasNoInitials(f: Record, json: Sdk.Json)
    requires "firstName" !in f && "lastName" !in f
    ensures var r := ContactService.DecodeContact(Obj(f), json);
      r.Success? ==> Initials(Get(r.value, "firstName"), Get(r.value, "lastName")) == Success("")
  {
    ContactService.DecodeContactFields(f, json);
  }
}
