/**
  Site settings: the text the CMS may supply for each section, merged with
  the built-in fallback copy, and the per-section views of the result.
 */
module SiteSettings {
  import opened Wrappers
  import opened Text

  datatype SettingKey =
    | HeroHeadline | HeroSubtext | HeroButtonText
    | ContactHeadline | ContactSubtext | ContactButtonText
    | FormSuccessMessage | FormErrorMessage
    | ServicesHeadline | ServicesSubtext
    | ProcessHeadline | ProcessSubtext
    | AboutHeadline | AboutSubtext
    | FooterTagline | FooterCopyright

  /** The CMS document: the fields it has. A field it lacks is absent from the map. */
  type CmsSettings = map<SettingKey, string>

  /** The footer's copyright fallback for the given year. */
  function CopyrightLine(year: nat): string {
    "© " + NatToString(year) + " Mobilify. All rights reserved."
  }

  /** The fallback copy of each field. */
  function Fallback(k: SettingKey, year: nat): string {
    match k
    case HeroHeadline => "Your Idea. Your App. Realized."
    case HeroSubtext => "Mobilify transforms your concepts and existing websites into stunning, high-performance mobile apps. We are the bridge from vision to launch."
    case HeroButtonText => "See How It Works"
    case ContactHeadline => "Ready to Build Your Mobile Future?"
    case ContactSubtext => "Let's discuss your project. We're happy to provide a free, no-obligation consultation and quote."
    case ContactButtonText => "Send Message"
    case FormSuccessMessage => "Thank you! Your message has been sent successfully. We'll get back to you within 24 hours."
    case FormErrorMessage => "Sorry, there was an error sending your message. Please try again or contact us directly."
    case ServicesHeadline => "Our Services"
    case ServicesSubtext => "Choose the perfect solution for your mobile app needs"
    case ProcessHeadline => "How It Works"
    case ProcessSubtext => "Our proven process to turn your idea into a successful mobile app"
    case AboutHeadline => "About Mobilify"
    case AboutSubtext => "We are passionate about helping businesses and entrepreneurs bring their ideas to life through mobile technology."
    case FooterTagline => "Building the future of mobile apps"
    case FooterCopyright => CopyrightLine(year)
  }

  /** `cmsSettings?.<field>`. */
  function Lookup(cms: Option<CmsSettings>, k: SettingKey): Option<string> {
    if cms.Some? && k in cms.value then Some(cms.value[k]) else None
  }

  datatype Settings = Settings(fields: SettingKey -> string, isLoading: bool, isFromCMS: bool, error: Option<string>)

  /** `createSettingsWithFallbacks`; `year` is the current year. */
  function CreateSettingsWithFallbacks(cms: Option<CmsSettings>, isLoading: bool, error: Option<string>, year: nat): Settings {
    Settings(k => Merged(cms, k, year), isLoading, cms.Some?, error)
  }

  /** `cmsSettings?.<field> || <fallback>`. */
  function Merged(cms: Option<CmsSettings>, k: SettingKey, year: nat): string {
    OrElse(Lookup(cms, k), Fallback(k, year))
  }

  /** Each field is the CMS text when the document has it non-empty, and
      the fallback otherwise; the flags pass through and `isFromCMS` says
      whether there was a document at all. */
  lemma FieldPrecedence(cms: Option<CmsSettings>, isLoading: bool, error: Option<string>, year: nat, k: SettingKey)
    ensures var r := CreateSettingsWithFallbacks(cms, isLoading, error, year);
      && (cms.Some? && k in cms.value && cms.value[k] != "" ==> r.fields(k) == cms.value[k])
      && (!(cms.Some? && k in cms.value && cms.value[k] != "") ==> r.fields(k) == Fallback(k, year))
      && r.isLoading == isLoading && r.error == error
      && (r.isFromCMS <==> cms.Some?)
  {
    assert CreateSettingsWithFallbacks(cms, isLoading, error, year).fields(k) == Merged(cms, k, year);
    MergePrecedence(cms, k, Fallback(k, year));
  }

  /** The merge rule for one field, whatever its fallback text. */
  lemma MergePrecedence(cms: Option<CmsSettings>, k: SettingKey, fallback: string)
    ensures cms.Some? && k in cms.value && cms.value[k] != "" ==> OrElse(Lookup(cms, k), fallback) == cms.value[k]
    ensures !(cms.Some? && k in cms.value && cms.value[k] != "") ==> OrElse(Lookup(cms, k), fallback) == fallback
  {
  }

  /** `getStaticSiteSettings`. */
  function StaticSiteSettings(year: nat): Settings {
    CreateSettingsWithFallbacks(None, false, None, year)
  }

  /** Without a CMS document every field is its fallback; the static
      settings are that, not loading and without error. */
  lemma StaticSettingsAreFallbacks(year: nat)
    ensures var r := StaticSiteSettings(year);
      && (forall k :: r.fields(k) == Fallback(k, year))
      && !r.isLoading && !r.isFromCMS && r.error.None?
  {
    forall k ensures StaticSiteSettings(year).fields(k) == Fallback(k, year) {
      FieldPrecedence(None, false, None, year, k);
    }
  }

  /** The copyright fallback mentions the year. */
  lemma CopyrightHasYear(year: nat)
    ensures Contains(CopyrightLine(year), NatToString(year))
  {
    var line := CopyrightLine(year);
    assert line[2..2 + |NatToString(year)|] == NatToString(year);
    assert OccursAt(line, NatToString(year), 2);
  }

  datatype Section = Hero | Contact | Services | Process | About | OtherSection

  /** The view `useSectionSettings` returns: the fields the section has. */
  datatype SectionSettings = SectionSettings(
    headline: Option<string>, subtext: Option<string>, buttonText: Option<string>,
    successMessage: Option<string>, errorMessage: Option<string>,
    isLoading: bool, isFromCMS: bool)

  function SectionView(section: Section, s: Settings): SectionSettings {
    var f := s.fields;
    match section
    case Hero => SectionSettings(Some(f(HeroHeadline)), Some(f(HeroSubtext)), Some(f(HeroButtonText)), None, None, s.isLoading, s.isFromCMS)
    case Contact => SectionSettings(Some(f(ContactHeadline)), Some(f(ContactSubtext)), Some(f(ContactButtonText)),
                                    Some(f(FormSuccessMessage)), Some(f(FormErrorMessage)), s.isLoading, s.isFromCMS)
    case Services => SectionSettings(Some(f(ServicesHeadline)), Some(f(ServicesSubtext)), None, None, None, s.isLoading, s.isFromCMS)
    case Process => SectionSettings(Some(f(ProcessHeadline)), Some(f(ProcessSubtext)), None, None, None, s.isLoading, s.isFromCMS)
    case About => SectionSettings(Some(f(AboutHeadline)), Some(f(AboutSubtext)), None, None, None, s.isLoading, s.isFromCMS)
    case OtherSection => SectionSettings(None, None, None, None, None, s.isLoading, s.isFromCMS)
  }

  /** The contact section is the only one with form messages, and they are
      the merged form-message fields; with no CMS document they are the
      fallback copy. */
  lemma ContactSectionMessages(cms: Option<CmsSettings>, isLoading: bool, error: Option<string>, year: nat, section: Section)
    ensures var s := CreateSettingsWithFallbacks(cms, isLoading, error, year);
      var v := SectionView(section, s);
      && (v.successMessage.Some? <==> section == Contact)
      && (v.errorMessage.Some? <==> section == Contact)
      && (section == Contact ==>
            v.successMessage == Some(s.fields(FormSuccessMessage)) && v.errorMessage == Some(s.fields(FormErrorMessage))
            && v.headline == Some(s.fields(ContactHeadline)) && v.buttonText == Some(s.fields(ContactButtonText)))
      && (section == Contact && cms.None? ==>
            v.successMessage == Some(Fallback(FormSuccessMessage, year)))
      && v.isFromCMS == cms.Some?
  {
    var s := CreateSettingsWithFallbacks(cms, isLoading, error, year);
    if cms.None? {
      assert s.fields(FormSuccessMessage) == Merged(cms, FormSuccessMessage, year);
      MergePrecedence(cms, FormSuccessMessage, Fallback(FormSuccessMessage, year));
    }
  }
}
