/**
  Page metadata: the meta-description cleaner and truncator, and the
  builders for blog-post, FAQ and service pages.
 */
module Metadata {
  import opened Wrappers
  import opened Text

  // ---------------------------------------------------------------------
  // Constants

  const SiteName := "Mobilify"
  const SiteUrl := "https://mobilify.vercel.app"
  const DefaultAuthor := "Mobilify Team"
  const TwitterHandle := "@mobilify"
  const DefaultMaxLength := 160

  /** The base keyword list. */
  const TargetKeywords: seq<string> := [
    "convert website to app",
    "custom app development",
    "app developer for startups",
    "mobile app development",
    "website to mobile app",
    "iOS app development",
    "Android app development"
  ]

  // ---------------------------------------------------------------------
  // Cleaning

  /** `.replace(/\n/g, ' ')`. */
  function ReplaceNewlines(s: string): (r: string)
    ensures |r| == |s|
    ensures forall i :: 0 <= i < |s| ==> r[i] == (if s[i] == '\n' then ' ' else s[i])
  {
    seq(|s|, i requires 0 <= i < |s| => if s[i] == '\n' then ' ' else s[i])
  }

  /** Every white-space character is a plain space and no two spaces touch. */
  predicate WellSpaced(s: string) {
    && (forall i :: 0 <= i < |s| ==> IsWhitespace(s[i]) ==> s[i] == ' ')
    && (forall i :: 0 <= i < |s| - 1 ==> !(s[i] == ' ' && s[i + 1] == ' '))
  }

  /** `.replace(/\s+/g, ' ')`: each maximal run of white space becomes one space. */
  function Collapse(s: string): (r: string)
    ensures |r| <= |s|
    ensures s != [] ==> r != [] && r[0] == (if IsWhitespace(s[0]) then ' ' else s[0])
    ensures WellSpaced(r)
    decreases |s|
  {
    if s == [] then []
    else if IsWhitespace(s[0]) then [' '] + Collapse(TrimStart(s[1..]))
    else [s[0]] + Collapse(s[1..])
  }

  /** The non-white-space characters of a string, in order. */
  function Visible(s: string): string {
    if s == [] then []
    else if IsWhitespace(s[0]) then Visible(s[1..])
    else [s[0]] + Visible(s[1..])
  }

  lemma {:induction false} VisibleConcat(a: string, b: string)
    ensures Visible(a + b) == Visible(a) + Visible(b)
  {
    if a == [] {
      assert a + b == b;
    } else {
      assert (a + b)[0] == a[0];
      assert (a + b)[1..] == a[1..] + b;
      VisibleConcat(a[1..], b);
    }
  }

  lemma {:induction false} VisibleOfBlank(s: string)
    requires forall i :: 0 <= i < |s| ==> IsWhitespace(s[i])
    ensures Visible(s) == []
  {
    if s != [] {
      VisibleOfBlank(s[1..]);
    }
  }

  lemma VisibleOfTrimStart(s: string)
    ensures Visible(TrimStart(s)) == Visible(s)
  {
    var t := TrimStart(s);
    var lead := s[..|s| - |t|];
    TrimStartDropsWhitespace(s);
    assert s == lead + t;
    VisibleOfBlank(lead);
    VisibleConcat(lead, t);
  }

  lemma VisibleOfTrimEnd(s: string)
    ensures Visible(TrimEnd(s)) == Visible(s)
  {
    var u := TrimEnd(s);
    var trail := s[|u|..];
    TrimEndDropsWhitespace(s);
    assert s == u + trail;
    VisibleOfBlank(trail);
    VisibleConcat(u, trail);
  }

  /** Trimming removes white space only. */
  lemma VisibleOfTrim(s: string)
    ensures Visible(Trim(s)) == Visible(s)
  {
    VisibleOfTrimStart(s);
    VisibleOfTrimEnd(TrimStart(s));
  }

  /** Collapsing keeps every visible character, in order. */
  lemma {:induction false} VisibleOfCollapse(s: string)
    ensures Visible(Collapse(s)) == Visible(s)
    decreases |s|
  {
    if s != [] {
      if IsWhitespace(s[0]) {
        var t := TrimStart(s[1..]);
        VisibleOfCollapse(t);
        VisibleOfTrimStart(s[1..]);
        assert ([' '] + Collapse(t))[1..] == Collapse(t);
      } else {
        VisibleOfCollapse(s[1..]);
        assert ([s[0]] + Collapse(s[1..]))[1..] == Collapse(s[1..]);
      }
    }
  }

  lemma {:induction false} TrimStartOfReplaced(s: string)
    ensures TrimStart(ReplaceNewlines(s)) == ReplaceNewlines(TrimStart(s))
  {
    if s != [] {
      assert ReplaceNewlines(s)[1..] == ReplaceNewlines(s[1..]);
      if IsWhitespace(s[0]) {
        TrimStartOfReplaced(s[1..]);
      }
    }
  }

  /** Mapping newlines to spaces first changes nothing: `\s+` already
      covers newlines. */
  lemma {:induction false} NewlineStepRedundant(s: string)
    ensures Collapse(ReplaceNewlines(s)) == Collapse(s)
    decreases |s|
  {
    if s != [] {
      var r := ReplaceNewlines(s);
      assert r[1..] == ReplaceNewlines(s[1..]);
      if IsWhitespace(s[0]) {
        TrimStartOfReplaced(s[1..]);
        NewlineStepRedundant(TrimStart(s[1..]));
      } else {
        NewlineStepRedundant(s[1..]);
      }
    }
  }

  /** The cleaned content. */
  function Clean(content: string): string {
    Trim(Collapse(ReplaceNewlines(content)))
  }

  lemma WellSpacedSlice(s: string, i: int, j: int)
    requires WellSpaced(s) && 0 <= i <= j <= |s|
    ensures WellSpaced(s[i..j])
  {
    var t := s[i..j];
    forall k | 0 <= k < |t| - 1 ensures !(t[k] == ' ' && t[k + 1] == ' ') {
      assert t[k] == s[i + k] && t[k + 1] == s[i + k + 1];
    }
  }

  /** Cleaning gives text without surrounding white space in which every
      white-space run is one plain space, keeping every visible character in
      order; the newline step is subsumed by the collapse. */
  lemma CleanProperties(content: string)
    ensures var c := Clean(content);
      && (c == [] || (!IsWhitespace(c[0]) && !IsWhitespace(c[|c| - 1])))
      && WellSpaced(c)
      && Visible(c) == Visible(content)
      && c == Trim(Collapse(content))
  {
    var x := Collapse(ReplaceNewlines(content));
    NewlineStepRedundant(content);
    assert x == Collapse(content);
    TrimWellSpaced(x);
    VisibleOfTrim(x);
    VisibleOfCollapse(content);
  }

  /** Trimming keeps a text free of double spaces. */
  lemma TrimWellSpaced(x: string)
    requires WellSpaced(x)
    ensures WellSpaced(Trim(x))
  {
    var t := TrimStart(x);
    var u := TrimEnd(t);
    WellSpacedSlice(x, |x| - |t|, |x|);
    WellSpacedSlice(t, 0, |u|);
  }

  // ---------------------------------------------------------------------
  // Truncation

  /** `s.substring(0, end)`: the end index is clamped into `0..|s|`. */
  function Substring(s: string, end: int): (r: string)
    ensures |r| == (if end <= 0 then 0 else if end >= |s| then |s| else end)
    ensures r == s[..|r|]
  {
    if end <= 0 then [] else if end >= |s| then s else s[..end]
  }

  /** The `window` is the first `maxLength - 3` characters; the cut moves
      back to the window's last space when that space lies beyond 80% of the
      window. The source compares `lastSpace > truncateAt * 0.8` in floating
      point; for integers this is `5 * lastSpace > 4 * truncateAt`, because
      the double nearest 0.8 lies just above it and the rounded product never
      lands on the other side of an integer. */
  function CutPoint(clean: string, maxLength: int): (k: nat)
    requires |clean| > maxLength
    ensures k <= |clean|
    ensures maxLength > 3 ==> k <= maxLength - 3
  {
    var window := maxLength - 3;
    if window <= 0 then 0
    else
      var lastSpace := LastIndexOf(clean[..window], ' ');
      if 5 * lastSpace > 4 * window then lastSpace else window
  }

  /** The description: the cleaned text when it fits, otherwise the text up
      to the cut point followed by `...`. */
  function MetaDescription(content: string, maxLength: int): string {
    var clean := Clean(content);
    if |clean| <= maxLength then clean
    else if clean == [] then []
    else clean[..CutPoint(clean, maxLength)] + "..."
  }

  /** `generateMetaDescription`: the step-by-step reassignments of the source. */
  method GenerateMetaDescription(content: string, maxLength: int) returns (description: string)
    ensures description == MetaDescription(content, maxLength)
  {
    var cleanContent := Clean(content);
    if |cleanContent| <= maxLength {
      ShortContentKept(content, maxLength);
      return cleanContent;
    }
    var truncateAt := maxLength - 3;
    description := Substring(cleanContent, truncateAt);
    ghost var window := description;
    var lastSpace := LastIndexOf(description, ' ');
    if 5 * lastSpace > 4 * truncateAt {
      description := Substring(description, lastSpace);
    }
    WindowCut(cleanContent, maxLength, window, lastSpace, description);
    if |description| < |cleanContent| {
      description := description + "...";
    }
    LongMetaDescription(content, maxLength, cleanContent);
  }

  /** The window, moved back to its last space when that lies past 80% of
      it, is the cleaned text up to the cut point, and it is shorter than the
      cleaned text unless both are empty. */
  lemma WindowCut(clean: string, maxLength: int, window: string, lastSpace: int, cut: string)
    requires |clean| > maxLength
    requires window == Substring(clean, maxLength - 3)
    requires lastSpace == LastIndexOf(window, ' ')
    requires cut == if 5 * lastSpace > 4 * (maxLength - 3) then Substring(window, lastSpace) else window
    ensures cut == clean[..CutPoint(clean, maxLength)]
    ensures |cut| < |clean| || clean == []
  {
    var t := maxLength - 3;
    if t <= 0 {
      assert window == [];
    } else {
      assert window == clean[..t];
      if 5 * lastSpace > 4 * t {
        assert Substring(window, lastSpace) == clean[..lastSpace];
      }
    }
  }

  lemma LongMetaDescription(content: string, maxLength: int, clean: string)
    requires clean == Clean(content) && |clean| > maxLength
    ensures MetaDescription(content, maxLength)
         == (if clean == [] then [] else clean[..CutPoint(clean, maxLength)] + "...")
  {
  }

  /** Text that fits after cleaning is returned unchanged. */
  lemma ShortContentKept(content: string, maxLength: int)
    requires |Clean(content)| <= maxLength
    ensures MetaDescription(content, maxLength) == Clean(content)
  {
  }

  /** Text that does not fit becomes a proper prefix of the cleaned text
      followed by `...`, within the length bound. */
  lemma LongContentTruncated(content: string, maxLength: int)
    requires maxLength >= 3 && |Clean(content)| > maxLength
    ensures var r := MetaDescription(content, maxLength);
            var c := Clean(content);
            exists k :: 0 <= k <= maxLength - 3 && r == c[..k] + "..."
    ensures |MetaDescription(content, maxLength)| <= maxLength
  {
    var c := Clean(content);
    var k := CutPoint(c, maxLength);
    assert MetaDescription(content, maxLength) == c[..k] + "...";
  }

  /** Where the cut falls: at a space past 80% of the window when the
      window's last space lies there, and at the window's end when the window
      has no space past 80% of its length. */
  lemma CutRule(clean: string, maxLength: int)
    requires maxLength > 3 && |clean| > maxLength
    ensures var k := CutPoint(clean, maxLength);
            var w := maxLength - 3;
            && (k < w ==> clean[k] == ' ' && 5 * k > 4 * w
                          && forall j :: k < j < w ==> clean[j] != ' ')
            && (k == w <==> forall j :: 0 <= j < w && 5 * j > 4 * w ==> clean[j] != ' ')
  {
    var w := maxLength - 3;
    var window := clean[..w];
    var ls := LastIndexOf(window, ' ');
    var k := CutPoint(clean, maxLength);
    if k < w {
      assert window[k] == clean[k];
      forall j | k < j < w ensures clean[j] != ' ' {
        assert window[j] == clean[j];
      }
    }
    if 5 * ls > 4 * w {
      assert window[ls] == clean[ls];
    } else {
      forall j | 0 <= j < w && 5 * j > 4 * w ensures clean[j] != ' ' {
        assert window[j] == clean[j];
      }
    }
  }

  // ---------------------------------------------------------------------
  // Metadata records

  datatype OgImage = OgImage(url: string, width: nat, height: nat, alt: string, mime: string)

  datatype OpenGraph = OpenGraph(
    title: string, description: string, ogType: string, url: string, siteName: string,
    images: Option<seq<OgImage>>, publishedTime: Option<string>, authors: Option<seq<string>>)

  datatype Twitter = Twitter(card: string, title: string, description: string, creator: string,
                             images: Option<seq<string>>)

  datatype Meta = Meta(
    title: string, description: string, keywords: seq<string>, authors: Option<seq<string>>,
    openGraph: OpenGraph, twitter: Twitter, canonical: Option<string>)

  // ---------------------------------------------------------------------
  // Blog post

  datatype BlogPost = BlogPost(
    title: string, excerpt: Option<string>, content: Option<string>, slug: string,
    author: Option<string>, publishedAt: Option<string>, mainImage: Option<string>,
    categories: Option<seq<string>>)   // the categories' titles

  function LowerAll(xs: seq<string>): (r: seq<string>)
    ensures |r| == |xs| && forall i :: 0 <= i < |xs| ==> r[i] == ToLower(xs[i])
  {
    seq(|xs|, i requires 0 <= i < |xs| => ToLower(xs[i]))
  }

  /** The category phrase of the fallback sentence: the lower-cased titles
      joined by `, `, or `mobile app development` when that is missing or empty. */
  function CategoryPhrase(categories: Option<seq<string>>): string {
    if categories.None? then "mobile app development"
    else
      var joined := Join(LowerAll(categories.value), ", ");
      if joined == "" then "mobile app development" else joined
  }

  function BlogDescription(post: BlogPost): string {
    if Truthy(post.excerpt) then post.excerpt.value
    else if Truthy(post.content) then MetaDescription(post.content.value, DefaultMaxLength)
    else "Read our latest insights on " + CategoryPhrase(post.categories) + "."
  }

  function BlogImage(post: BlogPost): OgImage {
    if Truthy(post.mainImage) then OgImage(post.mainImage.value, 1200, 630, post.title, "image/jpeg")
    else OgImage("/placeholder-image.svg", 1200, 630, post.title, "image/svg+xml")
  }

  /** `generateBlogPostMetadata`. */
  function BlogPostMetadata(post: BlogPost): Meta {
    var description := BlogDescription(post);
    var title := post.title + " | Mobilify Blog";
    var url := SiteUrl + "/blog/" + post.slug;
    var author := OrElse(post.author, DefaultAuthor);
    var image := BlogImage(post);
    Meta(title, description,
         TargetKeywords + (if post.categories.Some? then LowerAll(post.categories.value) else []),
         Some([author]),
         OpenGraph(title, description, "article", url, SiteName, Some([image]), post.publishedAt, Some([author])),
         Twitter("summary_large_image", title, description, TwitterHandle, Some([image.url])),
         Some(url))
  }

  /** Description precedence: a non-empty excerpt; else the content's meta
      description (at most 160 characters); else the category sentence. */
  lemma BlogDescriptionPrecedence(post: BlogPost)
    ensures var d := BlogPostMetadata(post).description;
      && (Truthy(post.excerpt) ==> d == post.excerpt.value)
      && (!Truthy(post.excerpt) && Truthy(post.content) ==>
            d == MetaDescription(post.content.value, 160) && |d| <= 160)
      && (!Truthy(post.excerpt) && !Truthy(post.content) ==>
            d == "Read our latest insights on " + CategoryPhrase(post.categories) + ".")
      && (!Truthy(post.excerpt) && !Truthy(post.content) && (post.categories.None? || post.categories.value == []) ==>
            d == "Read our latest insights on mobile app development.")
  {
    if !Truthy(post.excerpt) && Truthy(post.content) {
      var c := post.content.value;
      if |Clean(c)| > 160 {
        LongContentTruncated(c, 160);
      }
    }
  }

  /** The title carries the blog suffix; page url, open-graph url and
      canonical url agree; the keywords are the base list followed by the
      lower-cased category titles; the author defaults to the team. */
  lemma BlogIdentity(post: BlogPost)
    ensures var m := BlogPostMetadata(post);
      && m.title == post.title + " | Mobilify Blog"
      && m.openGraph.url == SiteUrl + "/blog/" + post.slug
      && m.canonical == Some(m.openGraph.url)
      && m.openGraph.title == m.title == m.twitter.title
      && m.openGraph.description == m.description == m.twitter.description
      && m.keywords[..7] == TargetKeywords
      && |m.keywords| == 7 + (if post.categories.Some? then |post.categories.value| else 0)
      && (forall i :: 7 <= i < |m.keywords| ==> m.keywords[i] == ToLower(post.categories.value[i - 7]))
      && m.authors == Some([if Truthy(post.author) then post.author.value else "Mobilify Team"])
  {
  }

  /** The main image, when given, is used in both the open-graph and the
      twitter card; otherwise both use the placeholder. */
  lemma BlogImages(post: BlogPost)
    ensures var m := BlogPostMetadata(post);
      && m.openGraph.images.Some? && |m.openGraph.images.value| == 1
      && m.twitter.images == Some([m.openGraph.images.value[0].url])
      && m.openGraph.images.value[0].alt == post.title
      && (Truthy(post.mainImage) ==> m.openGraph.images.value[0].url == post.mainImage.value
                                     && m.openGraph.images.value[0].mime == "image/jpeg")
      && (!Truthy(post.mainImage) ==> m.openGraph.images.value[0].url == "/placeholder-image.svg"
                                      && m.openGraph.images.value[0].mime == "image/svg+xml")
  {
  }

  // ---------------------------------------------------------------------
  // FAQ page

  datatype FaqEntry = FaqEntry(question: string, answer: string)

  const FaqTitle := "Frequently Asked Questions | Mobilify"
  const FaqIntro := "Get answers to frequently asked questions about mobile app development. Including: "

  function Questions(faqs: seq<FaqEntry>): (r: seq<string>)
    ensures |r| == |faqs| && forall i :: 0 <= i < |faqs| ==> r[i] == faqs[i].question
  {
    seq(|faqs|, i requires 0 <= i < |faqs| => faqs[i].question)
  }

  /** `faqs.slice(0, 3)`. */
  function FirstThree(faqs: seq<FaqEntry>): seq<FaqEntry> {
    if |faqs| <= 3 then faqs else faqs[..3]
  }

  /** `generateFAQMetadata`. */
  function FaqMetadata(faqs: seq<FaqEntry>): Meta {
    var topQuestions := Join(Questions(FirstThree(faqs)), ", ");
    var description := MetaDescription(FaqIntro + topQuestions, DefaultMaxLength);
    Meta(FaqTitle, description,
         TargetKeywords + ["FAQ", "mobile app questions", "app development help"],
         None,
         OpenGraph(FaqTitle, description, "website", SiteUrl + "/faq", SiteName, None, None, None),
         Twitter("summary", FaqTitle, description, TwitterHandle, None),
         None)
  }

  /** Only the first three questions matter: two lists agreeing on their
      first three questions give the same metadata, and the description is
      at most 160 characters. */
  lemma FaqUsesFirstThree(a: seq<FaqEntry>, b: seq<FaqEntry>)
    requires Questions(FirstThree(a)) == Questions(FirstThree(b))
    ensures FaqMetadata(a) == FaqMetadata(b)
    ensures |FaqMetadata(a).description| <= 160
  {
    var text := FaqIntro + Join(Questions(FirstThree(a)), ", ");
    if |Clean(text)| > 160 {
      LongContentTruncated(text, 160);
    }
  }

  /** The FAQ description mentions at most three questions: appending more
      entries after the third changes nothing. */
  lemma FaqIgnoresLaterEntries(faqs: seq<FaqEntry>, more: seq<FaqEntry>)
    requires |faqs| >= 3
    ensures FaqMetadata(faqs + more) == FaqMetadata(faqs)
  {
    assert (faqs + more)[..3] == faqs[..3];
    FaqUsesFirstThree(faqs + more, faqs);
  }

  // ---------------------------------------------------------------------
  // Service page

  datatype Service = Service(title: string, description: string, slug: string, features: Option<seq<string>>)

  /** `generateServiceMetadata`. */
  function ServiceMetadata(service: Service): Meta {
    var description := MetaDescription(service.description, DefaultMaxLength);
    var title := service.title + " | Mobilify Services";
    var url := SiteUrl + "/services/" + service.slug;
    Meta(title, description,
         TargetKeywords + [ToLower(service.title)] + service.features.GetOr([]),
         None,
         OpenGraph(title, description, "website", url, SiteName, None, None, None),
         Twitter("summary", title, description, TwitterHandle, None),
         Some(url))
  }

  /** The service description is the bounded meta description of the
      service's text, and url and canonical agree. */
  lemma ServiceDescription(service: Service)
    ensures var m := ServiceMetadata(service);
      && |m.description| <= 160
      && m.canonical == Some(m.openGraph.url) && m.openGraph.url == SiteUrl + "/services/" + service.slug
  {
    if |Clean(service.description)| > 160 {
      LongContentTruncated(service.description, 160);
    }
  }

  /** Keywords are the base list, then the lower-cased title, then the features. */
  lemma ServiceKeywords(service: Service)
    ensures var kw := ServiceMetadata(service).keywords;
      && kw[..7] == TargetKeywords && kw[7] == ToLower(service.title)
      && kw[8..] == service.features.GetOr([])
  {
    KeywordLayout(ToLower(service.title), service.features.GetOr([]));
  }

  lemma KeywordLayout(t: string, f: seq<string>)
    ensures (TargetKeywords + [t] + f)[..7] == TargetKeywords
    ensures (TargetKeywords + [t] + f)[7] == t
    ensures (TargetKeywords + [t] + f)[8..] == f
  {
    assert |TargetKeywords| == 7;
  }
}
