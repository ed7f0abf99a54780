/**
  The newsletter API route: the decision from the request body, the
  Mailchimp settings and the upstream reply to the HTTP response.
 */
module NewsletterRoute {
  import opened Wrappers
  import opened Text

  /** The route's answer: a status code and a JSON body, either a success
      message with the subscribed address or an error text. */
  datatype Body = Subscribed(message: string, email: string) | ErrorText(error: string)
  datatype Response = Response(status: int, body: Body)

  /** The settings read from the environment. */
  datatype Config = Config(apiKey: Option<string>, listId: Option<string>)

  /** What Mailchimp does with the request: answers (with `ok` and, on an
      error, the error's `title`), or fails so that an exception is raised. */
  datatype Upstream = Answered(ok: bool, title: Option<string>) | Failed

  /** The member record sent upstream. */
  datatype Member = Member(emailAddress: string, status: string, source: string)

  /** The upstream call: its URL, bearer token and member record. */
  datatype Call = Call(url: string, bearer: string, member: Member)

  const InvalidEmail := "Please provide a valid email address"
  const NotConfigured := "Newsletter service is not configured. Please try again later."
  const BadKey := "Newsletter service configuration error. Please try again later."
  const SubscribedMessage := "Successfully subscribed to newsletter"
  const AlreadySubscribed := "This email is already subscribed to our newsletter."
  const InvalidResource := "Please provide a valid email address."
  const Unavailable := "Unable to subscribe at this time. Please try again later."
  const Unexpected := "An unexpected error occurred. Please try again later."
  const NotAllowed := "Method not allowed"

  /** `apiKey.split('-')[1]` when it is there and non-empty. */
  function Datacenter(apiKey: string): (r: Option<string>)
    ensures r.Some? ==> r.value != "" && '-' !in r.value
  {
    var parts := Split(apiKey, '-');
    if |parts| >= 2 && parts[1] != "" then Some(parts[1]) else None
  }

  /** A key `<secret>-<dc>` or `<secret>-<dc>-<more>` has datacenter `dc`. */
  lemma DatacenterOfKey(secret: string, dc: string, rest: string)
    requires '-' !in secret && '-' !in dc && dc != ""
    ensures Datacenter(secret + "-" + dc) == Some(dc)
    ensures Datacenter(secret + "-" + dc + "-" + rest) == Some(dc)
  {
    SecondSegment(secret, dc, []);
    assert secret + "-" + dc == secret + "-" + (dc + []);
    var longKey := secret + "-" + dc + "-" + rest;
    SecondSegment(secret, dc, "-" + rest);
    assert longKey == secret + "-" + (dc + ("-" + rest));
    assert Split(longKey, '-')[1] == dc;
  }

  /** The text before the first `-` of `dc + tail`, when `tail` is empty or
      starts with `-`, is `dc`. */
  lemma FirstSegment(dc: string, tail: string)
    requires '-' !in dc
    requires tail == [] || tail[0] == '-'
    ensures Split(dc + tail, '-')[0] == dc
  {
    if tail == [] {
      assert dc + tail == dc;
    } else {
      var after := tail[1..];
      assert dc + tail == dc + ['-'] + after;
      SplitAtFirst(dc + tail, '-', dc, after);
    }
  }

  lemma SecondSegment(secret: string, dc: string, tail: string)
    requires '-' !in secret && '-' !in dc
    requires tail == [] || tail[0] == '-'
    ensures |Split(secret + "-" + (dc + tail), '-')| >= 2
    ensures Split(secret + "-" + (dc + tail), '-')[1] == dc
  {
    var key := secret + "-" + (dc + tail);
    assert key == secret + ['-'] + (dc + tail);
    SplitAtFirst(key, '-', secret, dc + tail);
    FirstSegment(dc, tail);
  }

  /** A key without a `-`, with nothing after its first `-`, or with an
      empty second segment, has none. */
  lemma NoDatacenter(secret: string, rest: string)
    requires '-' !in secret
    ensures Datacenter(secret) == None
    ensures Datacenter(secret + "-") == None
    ensures Datacenter(secret + "--" + rest) == None
  {
    assert Split(secret, '-') == [secret];
    SplitAtFirst(secret + "-", '-', secret, "");
    assert Split("", '-') == [""];
    EmptySecondSegment(secret, rest);
  }

  /** `abc--us1` splits as `["abc", "", "us1"]`: its second segment is empty. */
  lemma EmptySecondSegment(secret: string, rest: string)
    requires '-' !in secret
    ensures |Split(secret + "--" + rest, '-')| >= 2
    ensures Split(secret + "--" + rest, '-')[1] == ""
  {
    var b := ['-'] + rest;
    var key := secret + ['-'] + b;
    assert secret + "--" + rest == key;
    SecondSegmentEmpty(secret, b, rest);
  }

  /** The same, with the two separators written as sequences. */
  lemma SecondSegmentEmpty(secret: string, b: string, rest: string)
    requires '-' !in secret && b == ['-'] + rest
    ensures |Split(secret + ['-'] + b, '-')| >= 2
    ensures Split(secret + ['-'] + b, '-')[1] == ""
  {
    SplitAtFirst(secret + ['-'] + b, '-', secret, b);
    LeadingSeparator(b, rest);
  }

  /** A string that starts with `-` splits into an empty first segment. */
  lemma LeadingSeparator(b: string, rest: string)
    requires b == ['-'] + rest
    ensures Split(b, '-')[0] == ""
  {
    assert b == [] + ['-'] + rest;
    SplitAtFirst(b, '-', [], rest);
  }

  function MemberUrl(dc: string, listId: string): string {
    "https://" + dc + ".api.mailchimp.com/3.0/lists/" + listId + "/members"
  }

  /** The e-mail check: present, non-empty and containing `@`. */
  predicate ValidEmail(email: Option<string>) {
    Truthy(email) && '@' in email.value
  }

  predicate Configured(cfg: Config) {
    Truthy(cfg.apiKey) && Truthy(cfg.listId)
  }

  /** The upstream call the route makes, if it gets that far. */
  function PlannedCall(email: Option<string>, cfg: Config): Option<Call> {
    if !ValidEmail(email) || !Configured(cfg) then None
    else match Datacenter(cfg.apiKey.value)
      case None => None
      case Some(dc) =>
        Some(Call(MemberUrl(dc, cfg.listId.value), cfg.apiKey.value,
                  Member(ToLower(email.value), "subscribed", "Mobilify Website")))
  }

  /** `POST`. `body` is the parsed request body's `email` member, or `None`
      when the body could not be parsed; `upstream` is only consulted once
      the call is made. */
  function Post(body: Option<Option<string>>, cfg: Config, upstream: Upstream): Response {
    if body.None? then Response(500, ErrorText(Unexpected))
    else
      var email := body.value;
      if !ValidEmail(email) then Response(400, ErrorText(InvalidEmail))
      else if !Configured(cfg) then Response(500, ErrorText(NotConfigured))
      else if Datacenter(cfg.apiKey.value).None? then Response(500, ErrorText(BadKey))
      else match upstream
        case Failed => Response(500, ErrorText(Unexpected))
        case Answered(ok, title) =>
          if ok then Response(200, Subscribed(SubscribedMessage, ToLower(email.value)))
          else if title == Some("Member Exists") then Response(400, ErrorText(AlreadySubscribed))
          else if title == Some("Invalid Resource") then Response(400, ErrorText(InvalidResource))
          else Response(500, ErrorText(Unavailable))
  }

  function Get(): Response { Response(405, ErrorText(NotAllowed)) }
  function Put(): Response { Response(405, ErrorText(NotAllowed)) }
  function Delete(): Response { Response(405, ErrorText(NotAllowed)) }

  /** The e-mail is checked before anything else: a missing address or one
      without `@` gives 400 whatever the settings and the upstream reply. */
  lemma ValidationComesFirst(email: Option<string>, cfg: Config, upstream: Upstream)
    requires !ValidEmail(email)
    ensures Post(Some(email), cfg, upstream) == Response(400, ErrorText(InvalidEmail))
    ensures PlannedCall(email, cfg).None?
  {
  }

  /** A configured key without a datacenter gives 500 with the
      configuration-error text, and no upstream call, whatever the reply. */
  lemma BadKeyFails(email: Option<string>, cfg: Config, upstream: Upstream)
    requires ValidEmail(email) && Configured(cfg) && Datacenter(cfg.apiKey.value).None?
    ensures Post(Some(email), cfg, upstream) == Response(500, ErrorText(BadKey))
    ensures PlannedCall(email, cfg).None?
  {
  }

  /** Missing settings give 500 and no upstream call, whatever the reply. */
  lemma MissingConfigFails(email: Option<string>, cfg: Config, upstream: Upstream)
    requires ValidEmail(email) && !Configured(cfg)
    ensures Post(Some(email), cfg, upstream) == Response(500, ErrorText(NotConfigured))
    ensures PlannedCall(email, cfg).None?
  {
  }

  /** The response is 200 exactly when a call is made and answered `ok`; the
      address reported back is then the lower-cased one that was sent. */
  lemma SuccessIffCallOk(body: Option<Option<string>>, cfg: Config, upstream: Upstream)
    ensures Post(body, cfg, upstream).status == 200 <==>
      body.Some? && PlannedCall(body.value, cfg).Some? && upstream.Answered? && upstream.ok
    ensures Post(body, cfg, upstream).status == 200 ==>
      Post(body, cfg, upstream).body.email == PlannedCall(body.value, cfg).value.member.emailAddress
      && '@' in Post(body, cfg, upstream).body.email
  {
    var r := Post(body, cfg, upstream);
    if r.status == 200 {
      var e := body.value.value;
      var k := IndexOf(e, '@');
      assert ToLower(e)[k] == LowerChar('@') == '@';
    }
  }

  /** The call goes to the key's datacenter and the configured list, with the
      key as bearer token and the lower-cased address as subscribed member. */
  lemma CallShape(email: Option<string>, cfg: Config)
    requires PlannedCall(email, cfg).Some?
    ensures var c := PlannedCall(email, cfg).value;
      && Datacenter(cfg.apiKey.value).Some?
      && c.url == MemberUrl(Datacenter(cfg.apiKey.value).value, cfg.listId.value)
      && c.bearer == cfg.apiKey.value
      && c.member.emailAddress == ToLower(email.value)
      && c.member.status == "subscribed"
  {
  }

  /** Upstream error titles: `Member Exists` and `Invalid Resource` are the
      client's fault (400); any other failure is the server's (500). */
  lemma UpstreamErrorMapping(email: string, cfg: Config, title: Option<string>)
    requires PlannedCall(Some(email), cfg).Some?
    ensures var r := Post(Some(Some(email)), cfg, Answered(false, title));
      && (r.status == 400 <==> title == Some("Member Exists") || title == Some("Invalid Resource"))
      && (r.status == 500 <==> !(title == Some("Member Exists") || title == Some("Invalid Resource")))
      && r.body.ErrorText?
    ensures Post(Some(Some(email)), cfg, Failed) == Response(500, ErrorText(Unexpected))
  {
  }

  /** Every answer of `POST` is one of 200, 400 and 500, and only a
      successful subscription carries a success body. */
  lemma PostStatuses(body: Option<Option<string>>, cfg: Config, upstream: Upstream)
    ensures Post(body, cfg, upstream).status in {200, 400, 500}
    ensures Post(body, cfg, upstream).body.Subscribed? <==> Post(body, cfg, upstream).status == 200
  {
  }

  /** The other methods are refused. */
  lemma OtherMethodsRefused()
    ensures Get().status == 405 && Put().status == 405 && Delete().status == 405
  {
  }
}
