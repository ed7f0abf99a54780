/**
  The CMS client setup: when the project settings are usable, the image URL
  fallback, and what the data getters return without a client.
 */
module Sanity {
  import opened Wrappers
  import opened Text

  /** A character of the class `[a-z0-9-]`. */
  predicate IsProjectIdChar(c: char) {
    ('a' <= c <= 'z') || ('0' <= c <= '9') || c == '-'
  }

  predicate AllProjectIdChars(s: string) {
    forall i | 0 <= i < |s| :: IsProjectIdChar(s[i])
  }

  const ProjectPlaceholder := "your_sanity_project_id"
  const DatasetPlaceholder := "your_sanity_dataset"

  /** `isValidProjectId`. */
  predicate IsValidProjectId(projectId: Option<string>) {
    Truthy(projectId)
    && (AllProjectIdChars(projectId.value) && |projectId.value| > 0)
    && !Contains(projectId.value, ProjectPlaceholder)
  }

  /** A string of project-id characters never contains the placeholder, since
      `_` is not among them: the placeholder test adds nothing to the
      character class. */
  lemma PlaceholderCheckRedundant(s: string)
    requires AllProjectIdChars(s)
    ensures !Contains(s, ProjectPlaceholder)
  {
    assert !IsProjectIdChar(ProjectPlaceholder[4]);
    forall i | 0 <= i <= |s| - |ProjectPlaceholder| ensures !OccursAt(s, ProjectPlaceholder, i) {
      assert IsProjectIdChar(s[i + 4]);
      assert s[i..i + |ProjectPlaceholder|][4] == s[i + 4];
    }
  }

  /** A project id is valid exactly when it is a non-empty string of
      `[a-z0-9-]`. */
  lemma ValidProjectIdCharacterised(projectId: Option<string>)
    ensures IsValidProjectId(projectId) <==> projectId.Some? && projectId.value != [] && AllProjectIdChars(projectId.value)
  {
    if projectId.Some? && AllProjectIdChars(projectId.value) {
      PlaceholderCheckRedundant(projectId.value);
    }
  }

  /** `isConfigured`. */
  predicate IsConfigured(projectId: Option<string>, dataset: Option<string>) {
    Truthy(projectId) && Truthy(dataset) && IsValidProjectId(projectId) && !Contains(dataset.value, DatasetPlaceholder)
  }

  /** The client the module creates, when configured. */
  datatype ClientConfig = ClientConfig(projectId: string, dataset: string, apiVersion: string, useCdn: bool, token: Option<string>)

  function Client(projectId: Option<string>, dataset: Option<string>, production: bool, token: Option<string>): (r: Option<ClientConfig>)
    ensures r.Some? <==> IsConfigured(projectId, dataset)
    ensures r.Some? ==> r.value.projectId == projectId.value && r.value.dataset == dataset.value && AllProjectIdChars(r.value.projectId)
  {
    if IsConfigured(projectId, dataset) then
      Some(ClientConfig(projectId.value, OrElse(dataset, "production"), "2024-01-01", production, token))
    else None
  }

  const PlaceholderImage := "/placeholder-image.jpg"

  /** `urlFor(source).url()`; `builtUrl` is what the image builder makes of
      the source when there is a client. */
  function ImageUrl(client: Option<ClientConfig>, builtUrl: string): (r: string)
    ensures client.None? ==> r == PlaceholderImage
    ensures client.Some? ==> r == builtUrl
  {
    if client.None? then PlaceholderImage else builtUrl
  }

  /** A list getter (`getAllPosts`, `getAllCategories`, `getPostsByCategory`,
      `getAllFAQItems`, `getAllFAQTopics`, `getRelatedPosts`); `fetched` is
      what the query returns. */
  function ListGetter<T>(client: Option<ClientConfig>, fetched: seq<T>): (r: seq<T>)
    ensures client.None? ==> r == []
    ensures client.Some? ==> r == fetched
  {
    if client.None? then [] else fetched
  }

  /** `getPostBySlug`: one document or null. */
  function SingleGetter<T>(client: Option<ClientConfig>, fetched: Option<T>): (r: Option<T>)
    ensures client.None? ==> r.None?
    ensures client.Some? ==> r == fetched
  {
    if client.None? then None else fetched
  }

  /** What a query does: returns a value or throws. */
  datatype Fetch<T> = Fetched(value: T) | FetchFailed

  /** `getSiteSettings`: a failed query also gives null. */
  function SiteSettingsGetter<T>(client: Option<ClientConfig>, fetched: Fetch<Option<T>>): (r: Option<T>)
    ensures client.None? || fetched.FetchFailed? ==> r.None?
    ensures client.Some? && fetched.Fetched? ==> r == fetched.value
  {
    if client.None? then None
    else match fetched
      case Fetched(v) => v
      case FetchFailed => None
  }

  /** An unconfigured project never gets a client, so every getter returns
      its empty answer and every image is the placeholder. */
  lemma UnconfiguredIsEmpty<T>(projectId: Option<string>, dataset: Option<string>, production: bool,
                               token: Option<string>, items: seq<T>, one: Option<T>, url: string)
    requires !IsConfigured(projectId, dataset)
    ensures var c := Client(projectId, dataset, production, token);
      && ListGetter(c, items) == [] && SingleGetter(c, one).None?
      && ImageUrl(c, url) == PlaceholderImage
  {
  }

  /** Placeholders and malformed ids are refused. */
  lemma ProjectIdExamples()
    ensures !IsValidProjectId(None) && !IsValidProjectId(Some(""))
    ensures !IsValidProjectId(Some(ProjectPlaceholder))
    ensures !IsValidProjectId(Some("My-Project"))
    ensures IsValidProjectId(Some("abc123-x"))
  {
    assert !IsProjectIdChar(ProjectPlaceholder[4]);
    assert !IsProjectIdChar("My-Project"[0]);
    ValidProjectIdCharacterised(Some("abc123-x"));
  }
}
