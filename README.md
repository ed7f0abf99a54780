# Mobilify website: the logic behind the pages, in Dafny

This project models the deterministic logic of the Mobilify marketing site (a Next.js
application) and proves properties of it. The logic covered:

- the portable-text renderer (list grouping, span marks, block dispatch);
- the contact-form hook (field validation, form state, submission);
- the other submission state machines: the newsletter widget, the footer newsletter box,
  the landing-page contact section, and the newsletter API route;
- the metadata builders and the meta-description cleaner and truncator;
- the FAQ page (topics, search and topic filter, grouping, open answers, JSON-LD);
- the blog index filter, site-settings fallbacks, CMS client setup, structured data;
- the two interactive demos, the demo input rules, the services FAQ accordion, and the
  chat widget's id check and command queue.

Network calls, timers, environment variables and analytics are parameters or abstract
outcomes. Each async handler is one atomic method. The flags and status it sets before
its first `await` come back as ghost results, so "first sets `isSubmitting`" can be stated.

Layout: one module per source file. `Wrappers` holds `Option`. `Text` models the
JavaScript string primitives the code relies on: `trim` and the `\s` class, `includes`,
`startsWith`, `lastIndexOf`, ASCII `toLowerCase`, `join`, one-character `split` and
`String(n)`. `EmailPattern` models the e-mail regular expression shared by two forms.

## Model

| member | source | states |
|---|---|---|
| PortableText.GroupContent | mobilify-website/src/components/PortableText.tsx:178-207 | The grouping loop returns a grouping of the content: expanding runs gives the input back, every run is a non-empty run of list blocks of one kind, neighbouring runs differ in kind, and a lone block sits between a run and a later run of the same kind. It equals the recursive `Grouped`. |
| PortableText.GroupingProperties | mobilify-website/src/components/PortableText.tsx:178-207 | Grouping loses and reorders nothing, every group is well formed, and adjacent runs never merge. |
| PortableText.GroupedIsGrouping | mobilify-website/src/components/PortableText.tsx:183-207 | The recursive grouping satisfies the grouping conditions. |
| PortableText.FlattenGrouped | mobilify-website/src/components/PortableText.tsx:183-207 | Expanding the recursive grouping's runs and lone blocks gives the content back, in order. |
| PortableText.GroupedWell | mobilify-website/src/components/PortableText.tsx:183-207 | Each run of the recursive grouping is non-empty and of one list kind, and neighbouring runs differ in kind. |
| PortableText.GroupingIsGrouped | mobilify-website/src/components/PortableText.tsx:183-207 | Any sequence of groups meeting the grouping conditions is the recursive grouping. |
| PortableText.GroupingUnique | mobilify-website/src/components/PortableText.tsx:183-207 | A content sequence has exactly one grouping, so the loop's result is determined by the conditions alone. |
| PortableText.BulletExample | mobilify-website/src/components/PortableText.tsx:186-207 | `[bullet, bullet, normal, bullet]` gives exactly three groups: a run of two, the lone block, a run of one. |
| PortableText.RunRendering | mobilify-website/src/components/PortableText.tsx:212-218 | A run renders as an unordered list iff its first item's kind is `bullet`, else as an ordered list. Each member is rendered by `renderBlock`, in order, inside that list (so a heading-styled member renders as a heading, and a childless one as nothing). |
| PortableText.RenderShape | mobilify-website/src/components/PortableText.tsx:209-224 | The output holds one node per group, in order. |
| PortableText.RenderSpan | mobilify-website/src/components/PortableText.tsx:71-120 | The loop over the marks yields the span's specified rendering. |
| PortableText.UnmarkedSpanIsText | mobilify-website/src/components/PortableText.tsx:74-76 | A span with no marks or an empty mark list renders as its bare text. |
| PortableText.ApplyMarksLayers | mobilify-website/src/components/PortableText.tsx:78-119 | Marks add exactly one wrapper per recognised mark, in input order. The base element stays at the core. |
| PortableText.SpanNesting | mobilify-website/src/components/PortableText.tsx:78-119 | A marked span is its `<span>` wrapped once per recognised mark, with the last recognised mark outermost. |
| PortableText.UnknownMarkIgnored | mobilify-website/src/components/PortableText.tsx:87-116 | A mark that resolves to nothing can be removed from anywhere in the list without changing the result. This covers a key with no definition, or a definition that is not a `link` with an `href`. |
| PortableText.MarkOrderMatters | mobilify-website/src/components/PortableText.tsx:80-86 | `strong` then `em` nests differently from `em` then `strong`. There is no fixed precedence. |
| PortableText.FindDef | mobilify-website/src/components/PortableText.tsx:89 | The definition found has the key, and is the first with it. None is returned iff no definition has the key. |
| PortableText.LinkResolution | mobilify-website/src/components/PortableText.tsx:89-115 | A link mark resolves iff its first definition is a `link` with a non-empty `href`. It is external iff the `href` starts with `http`, otherwise internal. |
| PortableText.RenderSpans | mobilify-website/src/components/PortableText.tsx:122 | The children are the spans' renderings, one for one, in order. |
| PortableText.BlockDispatch | mobilify-website/src/components/PortableText.tsx:49-175 | An image shows `alt` or `Blog image`, with a caption only when truthy; a text block without children renders nothing. For text blocks, `h1`–`h4` give a heading of that level, `blockquote` a quote; otherwise `bullet`/`number` give a list item, else a paragraph. |
| ContactForm.NameRule | mobilify-website/src/hooks/useContactForm.ts:61-64 | Name: "required" iff all white space, too short iff the trimmed length is 1, passes iff the trimmed length is at least 2. |
| ContactForm.EmailRule | mobilify-website/src/hooks/useContactForm.ts:66-70 | E-mail: "required" iff all white space. Otherwise it passes iff the untrimmed value has the address shape. |
| ContactForm.EmailSurroundingSpace | mobilify-website/src/hooks/useContactForm.ts:67-69 | A well-shaped address with a space before or after it is refused as invalid. |
| ContactForm.CompanyRule | mobilify-website/src/hooks/useContactForm.ts:72-75 | Company fails iff its trimmed length is exactly 1, and passes when blank. |
| ContactForm.ProjectTypeRule | mobilify-website/src/hooks/useContactForm.ts:77-79 | Project type fails iff blank. |
| ContactForm.MessageRule | mobilify-website/src/hooks/useContactForm.ts:81-85 | Message: required iff blank; too short iff trimmed length is 1–9; too long iff over 1000; passes iff 10–1000. |
| Text.BlankIffTrimEmpty | mobilify-website/src/components/NewsletterSignup.tsx:22 | `!s.trim()` holds exactly when every character of `s` is white space. |
| ContactForm.ErrorsAreTruthy | mobilify-website/src/hooks/useContactForm.ts:97-100 | Every validator message is non-empty, so `if (error)` records exactly the failures. |
| ContactForm.ErrorsOverEntries | mobilify-website/src/hooks/useContactForm.ts:96-101 | Over any list of fields and any per-field check, the collected errors hold exactly the listed fields whose check gives a message, each with that message. |
| ContactForm.ErrorsOverSound | mobilify-website/src/hooks/useContactForm.ts:96-101 | Every collected entry is keyed by a listed field and holds that field's (truthy) message. |
| ContactForm.ErrorsOverComplete | mobilify-website/src/hooks/useContactForm.ts:96-101 | A listed field has an entry iff its check gives a truthy message. |
| ContactForm.FormErrorsExact | mobilify-website/src/hooks/useContactForm.ts:93-104 | `validateForm` has an entry for exactly the failing fields, with their messages, and no `general`. It is empty iff every field passes. |
| ContactForm.ValidateForm | mobilify-website/src/hooks/useContactForm.ts:93-104 | The loop over the fields returns the specified errors record. |
| ContactForm.FormData.Set | mobilify-website/src/hooks/useContactForm.ts:115-118 | Setting a field changes that field only. |
| ContactForm.FormState.UpdateField | mobilify-website/src/hooks/useContactForm.ts:112-126 | Sets only `data[f]`. Sets the errors of `f` and `general` to `undefined`. Other errors and all flags are unchanged. |
| ContactForm.FormState.ValidateSingleField | mobilify-website/src/hooks/useContactForm.ts:134-144 | Changes only `errors[f]`, to the validator result, and returns true iff the field passes. |
| ContactForm.FormState.ResetForm | mobilify-website/src/hooks/useContactForm.ts:147-149 | Restores the initial state from any state. |
| ContactForm.FormState.constructor | mobilify-website/src/hooks/useContactForm.ts:50-56 | The initial state: empty data, no errors, all flags false. |
| ContactForm.FormState.SubmitForm | mobilify-website/src/hooks/useContactForm.ts:152-228 | Invalid data: errors become `validateForm`, returns false. Unconfigured: errors become `{general}`, returns false; flags unchanged in both. Otherwise sends the payload with `isSubmitting` set and errors cleared; success ends submitted and successful, failure ends submitted, unsuccessful, with the general error. Data is never changed. |
| ContactForm.Payload | mobilify-website/src/hooks/useContactForm.ts:185-193 | The multipart body: eight pairs, the subject naming the sender. |
| ContactForm.TypingMakesFormInvalidAsWritten | mobilify-website/src/hooks/useContactForm.ts:246 | After typing into a fresh form the errors hold no message, yet `Object.keys(errors).length === 0` is false. |
| ContactForm.EditedErrorsValid | mobilify-website/src/hooks/useContactForm.ts:112-126 | After an edit, no message is held iff no message was held in the other field entries. |
| ContactForm.ValidityReadingsAgree | mobilify-website/src/hooks/useContactForm.ts:154-160 | On a `validateForm` result both readings of validity agree, and hold iff every field passes. |
| EmailPattern.ShapeMatchesPattern | mobilify-website/src/hooks/useContactForm.ts:68-69 | The regular expression `^[^\s@]+@[^\s@]+\.[^\s@]+$` matches iff the address has no white space, exactly one `@`, a non-empty local part, and a domain with an inner dot. |
| EmailPattern.SurroundingSpaceFails | mobilify-website/src/components/layout/FooterNewsletter.tsx:37-40 | An address with a leading or trailing space never matches. |
| EmailPattern.Examples | mobilify-website/src/components/layout/FooterNewsletter.tsx:37-40 | `a@b.co` matches; `not-an-email` and `a@b.` do not. |
| FooterNewsletter.ValidateEmail | mobilify-website/src/components/layout/FooterNewsletter.tsx:37-40 | `validateEmail` holds iff the value has the address shape. |
| FooterNewsletter.NewsletterBox.HandleSubmit | mobilify-website/src/components/layout/FooterNewsletter.tsx:42-86 | An invalid address sets only the error message. A valid one sets `isSubmitting` and clears the error. Success ends not submitting, submitted, with an empty address; failure ends not submitting with the error message, `isSubmitted` and the address unchanged. |
| FooterNewsletter.NewsletterBox.ClearSubmitted | mobilify-website/src/components/layout/FooterNewsletter.tsx:70-72 | The timer sets only `isSubmitted` back to false. |
| FooterNewsletter.NewsletterBox.HandleEmailChange | mobilify-website/src/components/layout/FooterNewsletter.tsx:88-94 | Sets the address and clears the error. The flags are unchanged. |
| NewsletterSignup.Widget.HandleSubmit | mobilify-website/src/components/NewsletterSignup.tsx:20-119 | A blank address changes nothing and sends nothing. A real attempt first sets `isSubmitting` and status `idle`. Without credentials it succeeds and clears the address, sending nothing. Otherwise it posts `{email, source: variant}` to `/api/newsletter`. `ok` gives success and clears the address; a non-ok response or a throw gives error and keeps it. `isSubmitting` ends false in every branch. After an attempt, the button is disabled iff the attempt succeeded (the address was cleared). |
| NewsletterSignup.Widget.SetEmail | mobilify-website/src/components/NewsletterSignup.tsx:109 | Typing changes only the address. |
| NewsletterSignup.Widget.constructor | mobilify-website/src/components/NewsletterSignup.tsx:12-18 | Empty address, not submitting, status idle, the given variant. |
| ContactSection.ContactPanel.HandleChange | mobilify-website/src/components/Contact.tsx:15-20 | Updates only the named field. |
| ContactSection.ContactPanel.HandleSubmit | mobilify-website/src/components/Contact.tsx:22-66 | Sends the payload while submitting with status `idle`. `ok` gives success and an empty form; otherwise error, keeping the data. `isSubmitting` ends false and the button enabled. |
| ContactSection.Payload | mobilify-website/src/components/Contact.tsx:28-44 | Exactly six distinct members, in order: the access key (or its placeholder when unset), name, e-mail, message, `from_name` "Mobilify Contact Form" and the fixed `subject`. |
| NewsletterRoute.ValidationComesFirst | mobilify-website/src/app/api/newsletter/route.ts:25-30 | A missing address or one without `@` gives 400, whatever the settings or the upstream reply, and no call is made. |
| NewsletterRoute.MissingConfigFails | mobilify-website/src/app/api/newsletter/route.ts:33-42 | A missing API key or list id gives 500 "not configured", and no call is made. |
| NewsletterRoute.Datacenter | mobilify-website/src/app/api/newsletter/route.ts:45-47 | The datacenter, when found, is a non-empty segment without `-`. |
| NewsletterRoute.DatacenterOfKey | mobilify-website/src/app/api/newsletter/route.ts:45 | For a key `secret-dc` or `secret-dc-more`, the datacenter is `dc`. |
| NewsletterRoute.NoDatacenter | mobilify-website/src/app/api/newsletter/route.ts:45-46 | A key with no `-`, with nothing after its first `-`, or with an empty second segment (`abc--us1`) has no datacenter. |
| NewsletterRoute.BadKeyFails | mobilify-website/src/app/api/newsletter/route.ts:45-53 | A valid address with configured settings whose key has no datacenter gives 500 with the configuration-error text, and no upstream call is made. |
| NewsletterRoute.CallShape | mobilify-website/src/app/api/newsletter/route.ts:56-74 | The call goes to `https://{dc}.api.mailchimp.com/3.0/lists/{listId}/members` with the key as bearer. The member is the lower-cased address with status `subscribed`. |
| NewsletterRoute.SuccessIffCallOk | mobilify-website/src/app/api/newsletter/route.ts:78-86 | 200 iff the call is made and answered `ok`. The address returned is the lower-cased one sent, and still contains `@`. |
| NewsletterRoute.UpstreamErrorMapping | mobilify-website/src/app/api/newsletter/route.ts:88-120 | `Member Exists` and `Invalid Resource` give 400, any other error title 500, an exception 500. |
| NewsletterRoute.PostStatuses | mobilify-website/src/app/api/newsletter/route.ts:20-121 | `POST` answers only 200, 400 or 500, with a success body iff 200. |
| NewsletterRoute.OtherMethodsRefused | mobilify-website/src/app/api/newsletter/route.ts:124-143 | GET, PUT and DELETE answer 405. |
| Metadata.CleanProperties | mobilify-website/src/lib/metadata.ts:32-35 | The cleaned text has no white space at either end and no two spaces in a row. It keeps every visible character in order, and equals trimming the collapsed text. |
| Metadata.NewlineStepRedundant | mobilify-website/src/lib/metadata.ts:33-34 | Replacing newlines before collapsing white space changes nothing. |
| Metadata.VisibleOfCollapse | mobilify-website/src/lib/metadata.ts:34 | Collapsing white space keeps the non-white-space characters in order. |
| Metadata.Collapse | mobilify-website/src/lib/metadata.ts:34 | The collapsed text is no longer than the input and has no two white-space characters in a row. |
| Metadata.ShortContentKept | mobilify-website/src/lib/metadata.ts:38-40 | Cleaned content within the limit is returned unchanged. |
| Metadata.LongContentTruncated | mobilify-website/src/lib/metadata.ts:46-60 | Longer content (limit at least 3) gives a prefix of the cleaned text plus `...`, no longer than the limit. |
| Metadata.CutRule | mobilify-website/src/lib/metadata.ts:46-53 | The cut falls at the window's last space when that lies past 80% of the window, and at the window's end when no space does. |
| Metadata.GenerateMetaDescription | mobilify-website/src/lib/metadata.ts:26-61 | The step-by-step computation returns the specified meta description. |
| Metadata.BlogDescriptionPrecedence | mobilify-website/src/lib/metadata.ts:74-76 | The description is the excerpt if truthy. Else the content's meta description, at most 160 long. Else the category sentence, defaulting to `mobile app development`. |
| Metadata.BlogIdentity | mobilify-website/src/lib/metadata.ts:78-121 | Title `… \| Mobilify Blog`; url and canonical `siteUrl/blog/slug`; keywords are the base list then the lower-cased categories; the author defaults to the team. |
| Metadata.BlogImages | mobilify-website/src/lib/metadata.ts:92-117 | The main image, or the placeholder SVG, in both open-graph and twitter. |
| Metadata.FaqUsesFirstThree | mobilify-website/src/lib/metadata.ts:126-151 | FAQ metadata depends only on the first three questions, and its description is at most 160 long. |
| Metadata.FaqIgnoresLaterEntries | mobilify-website/src/lib/metadata.ts:127 | Entries after the third do not change the FAQ metadata. |
| Metadata.ServiceDescription | mobilify-website/src/lib/metadata.ts:160-187 | The service description is at most 160 long. Url and canonical agree on `siteUrl/services/slug`. |
| Metadata.ServiceKeywords | mobilify-website/src/lib/metadata.ts:171 | Keywords: the base list, the lower-cased title, then the features. |
| FaqClient.TopicsCharacterised | mobilify-website/src/app/faq/FAQClient.tsx:22-25 | Topics are strictly ascending and duplicate-free, and are exactly the items' topic titles. Any such list equals them. |
| FaqClient.SortedUnique | mobilify-website/src/app/faq/FAQClient.tsx:22-25 | Two strictly sorted lists with the same elements are equal. |
| FaqClient.DistinctSorted | mobilify-website/src/app/faq/FAQClient.tsx:22-25 | Deduplicating and sorting gives a strictly sorted list of the same elements. |
| FaqClient.FilteredMembers | mobilify-website/src/app/faq/FAQClient.tsx:28-43 | An item is shown iff it passes both tests. Search: empty, or found case-insensitively in the question or some span of a text answer block. Topic: `all` or its own. |
| FaqClient.FilteredAppend | mobilify-website/src/app/faq/FAQClient.tsx:28-43 | Filtering keeps order: filtering a concatenation concatenates the filtered parts. |
| FaqClient.NoFilterKeepsAll | mobilify-website/src/app/faq/FAQClient.tsx:30-39 | An empty search with topic `all` shows every item. |
| FaqClient.TopicFilterSound | mobilify-website/src/app/faq/FAQClient.tsx:39 | A chosen topic shows only its items. |
| FaqClient.GroupByTopic | mobilify-website/src/app/faq/FAQClient.tsx:46-56 | One group per topic present, with distinct keys ordered by each topic's first item. Each group holds that topic's items in filtered order and is non-empty. |
| FaqClient.GroupsPartition | mobilify-website/src/app/faq/FAQClient.tsx:46-56 | Every item is in its topic's group and in no other. |
| FaqClient.ToggleProperties | mobilify-website/src/app/faq/FAQClient.tsx:58-66 | Toggling flips exactly the one id, and toggling twice restores the set. |
| FaqClient.FaqPage.ToggleItem | mobilify-website/src/app/faq/FAQClient.tsx:58-66 | The open set becomes the toggled set; search and topic are unchanged. |
| FaqClient.FaqPage.ClearFilters | mobilify-website/src/app/faq/FAQClient.tsx:165-168 | The search becomes empty and the topic `all`, so every item is shown again. |
| FaqClient.MainEntity | mobilify-website/src/app/faq/FAQClient.tsx:69-84 | One question per item of the unfiltered list, named by the question, with the flattened answer text. |
| FaqClient.AnswerTextHasSpans | mobilify-website/src/app/faq/FAQClient.tsx:75-80 | Every span text of every text block occurs in the JSON-LD answer text. |
| FaqClient.JoinHasElement | mobilify-website/src/app/faq/FAQClient.tsx:77-79 | Every element of a joined list occurs in the joined text. |
| SiteSettings.FieldPrecedence | mobilify-website/src/hooks/useSiteSettings.ts:58-93 | Each field is the CMS text when present and non-empty, otherwise its fallback. `isLoading` and `error` pass through, and `isFromCMS` holds iff there is a CMS document. |
| SiteSettings.StaticSettingsAreFallbacks | mobilify-website/src/hooks/useSiteSettings.ts:137-139 | Static settings: every field is its fallback, not loading, not from the CMS, no error. |
| SiteSettings.CopyrightHasYear | mobilify-website/src/hooks/useSiteSettings.ts:87 | The copyright fallback contains the current year. |
| SiteSettings.ContactSectionMessages | mobilify-website/src/hooks/useSiteSettings.ts:142-196 | Only the contact section has form messages. They are the merged form-message fields, and the fallback copy when there is no CMS document. |
| Sanity.PlaceholderCheckRedundant | mobilify-website/src/lib/sanity.ts:9 | A string of `[a-z0-9-]` never contains `your_sanity_project_id`. |
| Sanity.ValidProjectIdCharacterised | mobilify-website/src/lib/sanity.ts:5-10 | A project id is valid iff it is a non-empty string of `[a-z0-9-]`. |
| Sanity.ProjectIdExamples | mobilify-website/src/lib/sanity.ts:5-10 | Missing, empty, placeholder and upper-case ids are refused; `abc123-x` is accepted. |
| Sanity.Client | mobilify-website/src/lib/sanity.ts:12-26 | A client exists iff configured. Configured means id and dataset are present, the id is valid, and the dataset is not the placeholder. The client then carries them. |
| Sanity.ImageUrl | mobilify-website/src/lib/sanity.ts:31-37 | Without a client every image URL is `/placeholder-image.jpg`. |
| Sanity.ListGetter | mobilify-website/src/lib/sanity.ts:240-294 | Without a client a list getter returns `[]`, otherwise the query result. |
| Sanity.SingleGetter | mobilify-website/src/lib/sanity.ts:248-254 | Without a client `getPostBySlug` returns null. |
| Sanity.SiteSettingsGetter | mobilify-website/src/lib/sanity.ts:296-307 | Without a client, or when the query fails, `getSiteSettings` returns null. |
| Sanity.UnconfiguredIsEmpty | mobilify-website/src/lib/sanity.ts:12-37 | An unconfigured project gets empty answers and the placeholder image. |
| BlogPage.NoCategoryListsAll | mobilify-website/src/app/blog/page.tsx:92-96 | Without a category every post is listed. |
| BlogPage.CategoryFilter | mobilify-website/src/app/blog/page.tsx:93-95 | A post is listed iff it has a category of the slug. Order is kept. |
| BlogPage.FindBySlug | mobilify-website/src/app/blog/page.tsx:98-100 | The category found is the first with the slug. None is returned iff none has it. |
| BlogPage.HeaderTexts | mobilify-website/src/app/blog/page.tsx:119-174 | The selection's title as heading, else the default. Its description, else `Articles about <lower-cased title>`, as subtext. A category-specific empty-state line, else the generic one. |
| StructuredData.ListMapping | mobilify-website/src/components/StructuredData.tsx:89-109 | The k-th breadcrumb has position k+1 and item baseUrl + url. FAQ questions follow the input one for one. |
| StructuredData.MissingAndUnknown | mobilify-website/src/components/StructuredData.tsx:9-145 | Missing lists give empty ones, and an unknown type renders nothing. The base URL defaults to `https://mobilify.app`. |
| InteractiveDemo.DemoWidget.constructor | mobilify-website/src/components/InteractiveDemo.tsx:7-9 | Tab `website`, empty input, demo hidden. |
| InteractiveDemo.DemoWidget.HandlePreview | mobilify-website/src/components/InteractiveDemo.tsx:11-22 | Shows the demo iff the trimmed input is non-empty, and otherwise changes nothing. |
| InteractiveDemo.DemoWidget.SelectTab | mobilify-website/src/components/InteractiveDemo.tsx:24-27 | A tab click sets that tab, hides the demo and clears the input, which disables the preview button. |
| InteractiveDemo.DemoWidget.Placeholder | mobilify-website/src/components/InteractiveDemo.tsx:86-90 | The URL prompt on `website`, the idea prompt otherwise. |
| DemoSection.DemoState.HandlePreview | mobilify-website/src/components/sections/InteractiveDemo.tsx:47-52 | Shows the demo iff the trimmed input is non-empty. Never changes the tab or the input. |
| DemoSection.DemoState.HandleTabSwitch | mobilify-website/src/components/sections/InteractiveDemo.tsx:54-59 | Sets the tab, hides the demo, clears the input. |
| DemoSection.DemoState.constructor | mobilify-website/src/components/sections/InteractiveDemo.tsx:41-43 | Tab `website`, empty input, demo hidden. |
| DemoInput.ValidityByTab | mobilify-website/src/components/sections/DemoInput.tsx:75-88 | Blank is never valid. On `website`, valid iff the value parses as a URL; elsewhere iff the trimmed length is at least 3. |
| DemoInput.InputRulesAgree | mobilify-website/src/components/sections/DemoInput.tsx:71-141 | Enter previews iff the button is enabled. The URL error shows only on `website` for a non-empty, invalid value. The input type is `url` iff `website`. |
| DemoInput.Placeholder | mobilify-website/src/components/sections/DemoInput.tsx:58-69 | An explicit placeholder overrides the per-tab default. |
| DemoInput.BlankWebsiteValueShowsError | mobilify-website/src/components/sections/DemoInput.tsx:141 | A value of only white space on `website` is invalid and shows the URL error. |
| ServicesFaq.ToggleProperties | mobilify-website/src/components/ServicesFAQ.tsx:46-48 | A toggle opens a closed index or closes an open one, and leaves every other index closed, so at most one is open. |
| ServicesFaq.ToggleTwice | mobilify-website/src/components/ServicesFAQ.tsx:46-48 | Toggling an index twice restores the state iff nothing else was open; otherwise it closes everything. |
| ServicesFaq.Accordion.ToggleFaq | mobilify-website/src/components/ServicesFAQ.tsx:46-48 | The open index becomes the toggled one. |
| ServicesFaq.Accordion.constructor | mobilify-website/src/components/ServicesFAQ.tsx:9 | Initially nothing is open. |
| CrispChat.RenderGuard | mobilify-website/src/analytics/CrispChat.tsx:34-120 | The widget loads iff the id (prop first, then environment) is valid. A valid id is over ten characters and contains neither placeholder word. A missing or invalid id renders nothing. |
| CrispChat.IdExamples | mobilify-website/src/analytics/CrispChat.tsx:39-45 | Missing, empty, placeholder and ten-character ids are refused; an eleven-character one is accepted. |
| CrispChat.UserCommandsOrdered | mobilify-website/src/analytics/CrispChat.tsx:175-182 | `setUser` queues at most four `set` commands, each carrying a present field's value, in the order nickname, email, phone, avatar. |
| CrispChat.UserCommandsComplete | mobilify-website/src/analytics/CrispChat.tsx:175-182 | A field is queued iff it is present and non-empty. |
| CrispChat.ChatQueue.SetUser | mobilify-website/src/analytics/CrispChat.tsx:175-182 | Appends the user commands when the queue exists, and does nothing otherwise. |
| CrispChat.ChatQueue.OpenChat | mobilify-website/src/analytics/CrispChat.tsx:147-151 | Appends `chat:open` when the queue exists, after which chat is available. |
| CrispChat.ChatQueue.IsChatAvailable | mobilify-website/src/analytics/CrispChat.tsx:199-204 | Availability implies the queue exists. |

## Left out

- Rendering itself (JSX, class names, animation, icons) is out of scope. The renderer's output is a `RenderNode` tree, and React keys are not modelled.
- Marks nest in the order they appear, the last mark outermost. There is no fixed precedence.
- `generateMetaDescription`'s `targetKeywords` argument is unused by the code, so the model has no such parameter.
- The FAQ metadata has no images, authors or canonical URL because the code sets none.
- `fetch`, timers, `process.env`, analytics (`gtag`, `trackFormSubmission`, `trackDemoInteraction`) and console output are out. Each request's outcome is a parameter, and each async handler is one atomic step.
- Interleavings such as a second submit while one is in flight are not modelled.
- The contact-form hook has no in-flight guard and does not clear `data` on success. The model keeps both behaviours.
- `new URL(value)` is a boolean parameter `parsesAsUrl`, because the URL parser is not part of this model.
- `toLowerCase` lowers ASCII letters only. Unicode case mapping is not modelled.
- `Date`/`getFullYear` become a `year` parameter.
- The floating-point test `lastSpace > truncateAt * 0.8` in `generateMetaDescription` is written `5 * lastSpace > 4 * truncateAt`. The two agree on integers: the double nearest 0.8 lies just above 0.8, and the rounded product never crosses an integer.
- Strings are sequences of Unicode scalar values (Dafny's `char`), where JavaScript strings are sequences of UTF-16 code units. A character outside the Basic Multilingual Plane (such as an emoji) counts 1 here where `.length` counts 2. `substring` cannot split a surrogate pair here, and lone surrogates cannot be represented at all. Sorting compares scalar values, where the default array sort compares code units. The two orders differ only between a character outside the Basic Multilingual Plane and one in U+E000–U+FFFF. The members whose contracts depend on this are listed below.
- NameRule: the trimmed length is counted in scalar values, not the UTF-16 units `.length` counts. A one-emoji name, which the source accepts (length 2), is "too short" here.
- CompanyRule: "trimmed length exactly 1" counts scalar values, not UTF-16 units. A one-emoji company fails here but passes in the source.
- MessageRule: the 10 and 1000 bounds count scalar values, not UTF-16 units, so messages with characters outside the Basic Multilingual Plane can be judged differently.
- ShortContentKept: `<= maxLength` counts scalar values, not the UTF-16 units of `.length`.
- LongContentTruncated: the limit bounds the length in scalar values, not the UTF-16 length the source bounds.
- CutRule: the window and the space positions are scalar-value indices, where `substring` and `lastIndexOf` use code units.
- GenerateMetaDescription: lengths and cuts are in scalar values. The source's `substring` can split a surrogate pair and leave a lone surrogate, which the model cannot represent.
- BlogDescriptionPrecedence: "at most 160 long" counts scalar values, not UTF-16 units. The precedence itself is exact.
- FaqUsesFirstThree: the 160 bound counts scalar values, not UTF-16 units.
- ServiceDescription: the 160 bound counts scalar values, not UTF-16 units.
- TopicsCharacterised: topics are sorted by scalar value, while `sort()` compares UTF-16 code units. The orders differ when titles mix characters outside the Basic Multilingual Plane with characters in U+E000–U+FFFF.
- DistinctSorted: the same sort-order gap as TopicsCharacterised.
- ValidityByTab: `trim().length >= 3` is counted in scalar values, not UTF-16 units.
- RenderGuard: `id.length > 10` is counted in scalar values, not UTF-16 units.
- FaqClient.GroupByTopic: keys are listed in the order of each topic's first item. `Object.entries` would list integer-like topic titles (such as `"2024"`) first, in numeric order; that key ordering is not modelled.
- FaqClient.GroupByTopic: the source groups into a plain object, so a topic title naming an `Object.prototype` member (`constructor`, `toString`, `__proto__`, …) finds a truthy value already there, skips creating the group, and `push` throws, so the FAQ page fails to render. The map model groups such items like any other topic.
- NewsletterRoute.Post: the request body's `email` is a string or missing. A non-string `email` that makes `includes` throw is not modelled.
- NewsletterRoute.Post: an `ok` response whose body is not JSON (where `response.json()` throws) is not modelled separately; the `Failed` outcome covers every thrown error.
- NewsletterSignup.Widget.HandleSubmit: the one-second delay of the unconfigured branch is not modelled.
- FooterNewsletter.NewsletterBox.HandleSubmit: the analytics call after a success is assumed not to throw. If it did, the catch would add an error message to a succeeded state.
- FooterNewsletter.NewsletterBox.ClearSubmitted: the timer fires three seconds after a success, and that delay is not modelled.
- `useSiteSettings`'s loading effect (it sets `isLoading`/`error`/`cmsSettings` from the fetch) is left out. `createSettingsWithFallbacks` takes its results as parameters.
- `hasErrors` (useContactForm.ts:247) is the negation of the as-written `isValid` and is not modelled separately.
- Crisp script injection and polling for `window.$crisp` are out. Only the queue helpers and the id check are modelled.
- The Crisp helpers' `typeof window !== 'undefined'` test is folded into "the queue exists".
- ContactSection.ContactPanel.HandleChange: inputs are the three named fields. An input with another `name` would add a new key, and that is not modelled.
- StructuredData: the constant documents (organization, service, website) are modelled by the URLs that vary with the base URL. Their fixed text is left out.
- SiteSettings.SectionView: the `default` branch is modelled as an `OtherSection` value.

## Findings

| source | as written | input that shows it | evidently intended | confidence | as-written member | corrected member |
|---|---|---|---|---|---|---|
| mobilify-website/src/hooks/useContactForm.ts:246 | `isValid` is `Object.keys(errors).length === 0`. `updateField` writes `undefined` under the edited field and `general` rather than deleting them (lines 120-124), so the keys stay. | A fresh form, then `updateField('name', 'Jo')`: the errors are `{name: undefined, general: undefined}` and `isValid` is false, though no error is shown. | The form is valid when no key holds a message. | not executed | ContactForm.TypingMakesFormInvalidAsWritten | ContactForm.EditedErrorsValid |
