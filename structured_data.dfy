/**
  The JSON-LD documents the site embeds, chosen by a type name; the lists
  in them are mapped from the page's data.
 */
module StructuredData {
  import opened Wrappers
  import opened Text

  datatype SchemaType = Organization | ServiceSchema | FaqSchema | BreadcrumbSchema | WebsiteSchema | UnknownSchema(name: string)

  datatype FaqEntry = FaqEntry(question: string, answer: string)
  datatype Crumb = Crumb(name: string, url: string)

  /** The component's `data` prop: the lists it may carry. */
  datatype PageData = PageData(faqs: Option<seq<FaqEntry>>, breadcrumbs: Option<seq<Crumb>>)

  datatype Question = Question(name: string, answerText: string)
  datatype ListItem = ListItem(position: int, name: string, item: string)
  datatype Offer = Offer(name: string, price: string)

  datatype Document =
    | OrganizationDoc(url: string, logo: string)
    | ServiceDoc(providerUrl: string, offers: seq<Offer>)
    | FaqPage(mainEntity: seq<Question>)
    | BreadcrumbList(itemListElement: seq<ListItem>)
    | WebSiteDoc(url: string, searchTemplate: string, logoUrl: string)

  const DefaultBaseUrl := "https://mobilify.app"

  /** `process.env.NEXT_PUBLIC_SITE_URL || 'https://mobilify.app'`. */
  function BaseUrl(env: Option<string>): string {
    OrElse(env, DefaultBaseUrl)
  }

  function Questions(faqs: seq<FaqEntry>): seq<Question> {
    seq(|faqs|, i requires 0 <= i < |faqs| => Question(faqs[i].question, faqs[i].answer))
  }

  function Breadcrumbs(baseUrl: string, crumbs: seq<Crumb>): seq<ListItem> {
    seq(|crumbs|, i requires 0 <= i < |crumbs| => ListItem(i + 1, crumbs[i].name, baseUrl + crumbs[i].url))
  }

  /** `getStructuredData`. */
  function GetStructuredData(t: SchemaType, data: Option<PageData>, baseUrl: string): Option<Document> {
    match t
    case Organization => Some(OrganizationDoc(baseUrl, baseUrl + "/logo.svg"))
    case ServiceSchema => Some(ServiceDoc(baseUrl, [Offer("Website to App Conversion", "5000"), Offer("Custom Mobile App Development", "15000")]))
    case FaqSchema =>
      Some(FaqPage(if data.Some? && data.value.faqs.Some? then Questions(data.value.faqs.value) else []))
    case BreadcrumbSchema =>
      Some(BreadcrumbList(if data.Some? && data.value.breadcrumbs.Some? then Breadcrumbs(baseUrl, data.value.breadcrumbs.value) else []))
    case WebsiteSchema => Some(WebSiteDoc(baseUrl, baseUrl + "/search?q={search_term_string}", baseUrl + "/logo.svg"))
    case UnknownSchema(_) => None
  }

  /** What the component renders: a script tag with an id naming the type
      and the document, or nothing. */
  datatype Rendered = ScriptTag(id: string, doc: Document) | RenderNothing

  function TypeName(t: SchemaType): string {
    match t
    case Organization => "organization"
    case ServiceSchema => "service"
    case FaqSchema => "faq"
    case BreadcrumbSchema => "breadcrumb"
    case WebsiteSchema => "website"
    case UnknownSchema(name) => name
  }

  function Render(t: SchemaType, data: Option<PageData>, env: Option<string>): Rendered {
    var doc := GetStructuredData(t, data, BaseUrl(env));
    if doc.None? then RenderNothing else ScriptTag("structured-data-" + TypeName(t), doc.value)
  }

  /** The k-th breadcrumb has position k+1 and points at the base URL
      followed by the crumb's own URL; the FAQ questions follow the input
      one for one, in order. */
  lemma ListMapping(t: SchemaType, data: PageData, baseUrl: string)
    ensures t == BreadcrumbSchema && data.breadcrumbs.Some? ==>
      var items := GetStructuredData(t, Some(data), baseUrl).value.itemListElement;
      var crumbs := data.breadcrumbs.value;
      && |items| == |crumbs|
      && forall k :: 0 <= k < |crumbs| ==>
           items[k].position == k + 1 && items[k].name == crumbs[k].name
           && StartsWith(items[k].item, baseUrl) && items[k].item[|baseUrl|..] == crumbs[k].url
    ensures t == FaqSchema && data.faqs.Some? ==>
      var qs := GetStructuredData(t, Some(data), baseUrl).value.mainEntity;
      var faqs := data.faqs.value;
      && |qs| == |faqs|
      && forall k :: 0 <= k < |faqs| ==> qs[k].name == faqs[k].question && qs[k].answerText == faqs[k].answer
  {
    if t == BreadcrumbSchema && data.breadcrumbs.Some? {
      var items := Breadcrumbs(baseUrl, data.breadcrumbs.value);
      forall k | 0 <= k < |items| ensures StartsWith(items[k].item, baseUrl) && items[k].item[|baseUrl|..] == data.breadcrumbs.value[k].url {
        assert items[k].item == baseUrl + data.breadcrumbs.value[k].url;
      }
    }
  }

  /** Missing lists give empty ones, and only an unknown type renders nothing. */
  lemma MissingAndUnknown(t: SchemaType, data: Option<PageData>, env: Option<string>)
    ensures t == FaqSchema && (data.None? || data.value.faqs.None?) ==>
      GetStructuredData(t, data, BaseUrl(env)) == Some(FaqPage([]))
    ensures t == BreadcrumbSchema && (data.None? || data.value.breadcrumbs.None?) ==>
      GetStructuredData(t, data, BaseUrl(env)) == Some(BreadcrumbList([]))
    ensures Render(t, data, env) == RenderNothing <==> t.UnknownSchema?
    ensures !Truthy(env) ==> BaseUrl(env) == DefaultBaseUrl
  {
  }
}
