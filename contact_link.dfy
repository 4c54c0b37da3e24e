/**
 * The contact-link revealer of `assets/js/main.js`: once the page is parsed,
 * the element with id `contactLink` either gets a `mailto:` link assembled
 * from its `data-user` and `data-domain` attributes, or is hidden when those
 * attributes are missing or still hold their placeholders.
 */
module ContactLink {
  import opened Wrappers
  import opened JsString

  const UserPlaceholder := "REPLACE_USER"
  const DomainPlaceholder := "REPLACE_DOMAIN"
  const MailtoScheme := "mailto:"
  const LabelPrefix := "Email: "

  /**
   * `element.getAttribute(name)?.trim()`: an absent attribute stays absent; a
   * present one loses exactly its leading and trailing whitespace.
   */
  function ReadAttribute(raw: Option<string>): (r: Option<string>)
    ensures r.Some? <==> raw.Some?
    ensures r.Some? ==> IsTrimmed(r.value) && |r.value| <= |raw.value|
    ensures r.Some? ==> r.value == Trim(raw.value)
  {
    match raw
    case None => None
    case Some(v) => Some(Trim(v))
  }

  /** JavaScript truthiness of an optional string: present and not empty. */
  predicate Truthy(v: Option<string>)
    ensures !Truthy(v) <==> v == None || v == Some("")
  {
    v.Some? && v.value != ""
  }

  /** The guard of the handler, on the already trimmed attribute values. */
  predicate IsConfigured(user: Option<string>, domain: Option<string>)
    ensures !IsConfigured(user, domain) <==>
      || user in {None, Some(""), Some(UserPlaceholder)}
      || domain in {None, Some(""), Some(DomainPlaceholder)}
  {
    Truthy(user) && Truthy(domain) && user.value != UserPlaceholder && domain.value != DomainPlaceholder
  }

  /** What the handler does to the contact element. */
  datatype Outcome = Hide | Show(href: string, ariaLabel: string)

  /** `${user}@${domain}`: the user, an `@` and the domain, each recoverable from the address. */
  function Address(user: string, domain: string): (a: string)
    ensures |a| == |user| + 1 + |domain| && a[|user|] == '@'
    ensures a[..|user|] == user && a[|user| + 1..] == domain
  {
    user + "@" + domain
  }

  /**
   * The decision of the handler, from the raw attribute values: hide the
   * element unless both trimmed values are non-empty and differ from their
   * placeholders; otherwise link to the address built from the trimmed values.
   */
  function Decide(rawUser: Option<string>, rawDomain: Option<string>): (o: Outcome)
    ensures o.Hide? <==>
      || rawUser.None? || rawDomain.None?
      || Trim(rawUser.value) == "" || Trim(rawDomain.value) == ""
      || Trim(rawUser.value) == UserPlaceholder || Trim(rawDomain.value) == DomainPlaceholder
    ensures o.Show? ==>
      && o.href == MailtoScheme + Address(Trim(rawUser.value), Trim(rawDomain.value))
      && o.ariaLabel == LabelPrefix + Address(Trim(rawUser.value), Trim(rawDomain.value))
  {
    var user := ReadAttribute(rawUser);
    var domain := ReadAttribute(rawDomain);
    if !IsConfigured(user, domain) then
      Hide
    else
      var email := Address(user.value, domain.value);
      Show(MailtoScheme + email, LabelPrefix + email)
  }

  lemma PrefixSplit(prefix: string, rest: string)
    ensures |prefix + rest| == |prefix| + |rest|
    ensures (prefix + rest)[..|prefix|] == prefix && (prefix + rest)[|prefix|..] == rest
  {
  }

  /** An address built from two trimmed, non-empty parts has no whitespace at either end. */
  lemma AddressTrimmed(user: string, domain: string)
    requires IsTrimmed(user) && IsTrimmed(domain) && user != "" && domain != ""
    ensures IsTrimmed(Address(user, domain))
  {
    var email := Address(user, domain);
    assert email[0] == user[0];
    assert email[|email| - 1] == domain[|domain| - 1];
  }

  /** Link target and label always name the same address, neither end of which is whitespace. */
  lemma {:induction false} ShownAddressAgrees(rawUser: Option<string>, rawDomain: Option<string>)
    ensures var o := Decide(rawUser, rawDomain);
      o.Show? ==>
        && |o.href| > |MailtoScheme| && o.href[..|MailtoScheme|] == MailtoScheme
        && |o.ariaLabel| > |LabelPrefix| && o.ariaLabel[..|LabelPrefix|] == LabelPrefix
        && o.href[|MailtoScheme|..] == o.ariaLabel[|LabelPrefix|..]
        && IsTrimmed(o.href[|MailtoScheme|..])
  {
    if Decide(rawUser, rawDomain).Show? {
      var user, domain := Trim(rawUser.value), Trim(rawDomain.value);
      var email := Address(user, domain);
      PrefixSplit(MailtoScheme, email);
      PrefixSplit(LabelPrefix, email);
      AddressTrimmed(user, domain);
    }
  }

  /** Whitespace around either attribute value never changes what the handler does. */
  lemma {:induction false} DecideIgnoresPadding(rawUser: string, rawDomain: string, pre: string, post: string)
    requires AllWhitespace(pre) && AllWhitespace(post)
    ensures Decide(Some(pre + rawUser + post), Some(rawDomain)) == Decide(Some(rawUser), Some(rawDomain))
    ensures Decide(Some(rawUser), Some(pre + rawDomain + post)) == Decide(Some(rawUser), Some(rawDomain))
  {
    TrimIgnoresPadding(pre, rawUser, post);
    TrimIgnoresPadding(pre, rawDomain, post);
  }

  /** Values that are already trimmed, non-empty and not placeholders are linked as they are. */
  lemma {:induction false} DecideConfigured(user: string, domain: string)
    requires IsTrimmed(user) && IsTrimmed(domain)
    requires user != "" && domain != "" && user != UserPlaceholder && domain != DomainPlaceholder
    ensures Decide(Some(user), Some(domain))
         == Show(MailtoScheme + Address(user, domain), LabelPrefix + Address(user, domain))
  {
  }

  lemma JaneAddress(user: string, domain: string)
    requires user == "jane" && domain == "example.com"
    ensures MailtoScheme + Address(user, domain) == "mailto:jane@example.com"
    ensures LabelPrefix + Address(user, domain) == "Email: jane@example.com"
  {
  }

  /**
   * A configured page: `jane` at `example.com`. The literals arrive as
   * parameters pinned by `requires`, because `Decide` applied to string
   * literals directly makes the solver unfold `Trim` character by character
   * and exhaust its resources; `JaneAddress` and `PaddedPlaceholderSpelling`
   * carry the literal facts for these examples.
   */
  lemma {:induction false} ExampleConfigured(user: string, domain: string)
    requires user == "jane" && domain == "example.com"
    ensures Decide(Some(user), Some(domain)) == Show("mailto:jane@example.com", "Email: jane@example.com")
  {
    assert IsTrimmed(user) && IsTrimmed(domain) by {
      AsciiWhitespace(user[0]);
      AsciiWhitespace(user[|user| - 1]);
      AsciiWhitespace(domain[0]);
      AsciiWhitespace(domain[|domain| - 1]);
    }
    DecideConfigured(user, domain);
    JaneAddress(user, domain);
  }

  lemma PaddedPlaceholderSpelling(rawUser: string)
    requires rawUser == " REPLACE_USER "
    ensures rawUser == " " + UserPlaceholder + " "
    ensures IsTrimmed(UserPlaceholder) && AllWhitespace(" ")
  {
    AsciiWhitespace(' ');
    AsciiWhitespace('R');
  }

  /** A padded placeholder still counts as the placeholder, whatever the domain. */
  lemma {:induction false} ExamplePaddedPlaceholder(rawUser: string, rawDomain: Option<string>)
    requires rawUser == " REPLACE_USER "
    ensures Decide(Some(rawUser), rawDomain).Hide?
  {
    PaddedPlaceholderSpelling(rawUser);
    TrimPadded(" ", UserPlaceholder, " ");
  }

  /** A whitespace-only value counts as missing, whatever the user. */
  lemma {:induction false} ExampleBlankDomain(rawUser: Option<string>, rawDomain: string)
    requires rawDomain == "  "
    ensures Decide(rawUser, Some(rawDomain)).Hide?
  {
    AsciiWhitespace(' ');
    TrimEmptyIff(rawDomain);
  }

  /** The contact element: its two data attributes and what the handler may change. */
  class ContactElement {
    const dataUser: Option<string>
    const dataDomain: Option<string>
    /** `style.display == 'none'` */
    var hidden: bool
    var href: Option<string>
    var ariaLabel: Option<string>

    constructor (dataUser: Option<string>, dataDomain: Option<string>, hidden: bool,
                 href: Option<string>, ariaLabel: Option<string>)
      ensures this.dataUser == dataUser && this.dataDomain == dataDomain
      ensures this.hidden == hidden && this.href == href && this.ariaLabel == ariaLabel
    {
      this.dataUser, this.dataDomain := dataUser, dataDomain;
      this.hidden, this.href, this.ariaLabel := hidden, href, ariaLabel;
    }
  }

  /** `Decide` as the handler's steps compute it. */
  lemma DecideSteps(rawUser: Option<string>, rawDomain: Option<string>)
    ensures var user, domain := ReadAttribute(rawUser), ReadAttribute(rawDomain);
      Decide(rawUser, rawDomain)
        == if !IsConfigured(user, domain) then Hide
           else Show(MailtoScheme + Address(user.value, domain.value), LabelPrefix + Address(user.value, domain.value))
  {
  }

  /**
   * The `DOMContentLoaded` handler; `contactLink` is what
   * `document.getElementById('contactLink')` found, `null` when nothing.
   */
  method OnContentLoaded(contactLink: ContactElement?)
    modifies contactLink
    ensures contactLink != null ==>
      match Decide(contactLink.dataUser, contactLink.dataDomain)
      case Hide =>
        && contactLink.hidden
        && contactLink.href == old(contactLink.href)
        && contactLink.ariaLabel == old(contactLink.ariaLabel)
      case Show(link, text) =>
        && contactLink.hidden == old(contactLink.hidden)
        && contactLink.href == Some(link)
        && contactLink.ariaLabel == Some(text)
  {
    if contactLink == null {
      return;
    }
    DecideSteps(contactLink.dataUser, contactLink.dataDomain);
    var user := ReadAttribute(contactLink.dataUser);
    var domain := ReadAttribute(contactLink.dataDomain);
    if !IsConfigured(user, domain) {
      contactLink.hidden := true;
      return;
    }
    var email := Address(user.value, domain.value);
    contactLink.href := Some(MailtoScheme + email);
    contactLink.ariaLabel := Some(LabelPrefix + email);
  }
}
