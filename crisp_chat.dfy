/**
  The chat widget: the website id check that decides whether the widget
  loads, and the helpers that queue commands for it.
 */
module CrispChat {
  import opened Wrappers
  import opened Text

  /** `isValidCrispId`. */
  predicate IsValidCrispId(id: Option<string>) {
    Truthy(id)
    && !Contains(id.value, "your_crisp_website_id")
    && !Contains(id.value, "placeholder")
    && |id.value| > 10
  }

  /** `websiteId || process.env.NEXT_PUBLIC_CRISP_WEBSITE_ID`. */
  function WebsiteId(prop: Option<string>, env: Option<string>): Option<string> {
    if Truthy(prop) then prop else env
  }

  /** What the component renders: the two loader scripts for an id, or nothing. */
  datatype Rendered = LoaderScripts(websiteId: string) | RenderNothing

  function Render(prop: Option<string>, env: Option<string>): Rendered {
    var id := WebsiteId(prop, env);
    if !Truthy(id) || !IsValidCrispId(id) then RenderNothing else LoaderScripts(id.value)
  }

  /** The widget loads exactly for a valid id, which is then longer than ten
      characters and free of the placeholder words; the prop wins over the
      environment. */
  lemma RenderGuard(prop: Option<string>, env: Option<string>)
    ensures Render(prop, env).LoaderScripts? <==> IsValidCrispId(WebsiteId(prop, env))
    ensures Render(prop, env).LoaderScripts? ==>
      var id := Render(prop, env).websiteId;
      |id| > 10 && !Contains(id, "placeholder") && !Contains(id, "your_crisp_website_id")
      && (Truthy(prop) ==> id == prop.value)
      && (!Truthy(prop) ==> id == env.value)
  {
  }

  lemma IdExamples()
    ensures !IsValidCrispId(None) && !IsValidCrispId(Some(""))
    ensures !IsValidCrispId(Some("your_crisp_website_id"))
    ensures !IsValidCrispId(Some("0123456789"))
    ensures IsValidCrispId(Some("0123456789a"))
  {
    assert OccursAt("your_crisp_website_id", "your_crisp_website_id", 0);
    var good := "0123456789a";
    assert !OccursAt(good, "placeholder", 0) by {
      assert good[0..11][0] == '0';
    }
  }

  /** A queued command: a verb, a key and an argument. */
  datatype Arg = NoArg | Text(text: string) | TextMessage(message: string) | Strings(items: seq<string>) | Pairs(entries: seq<(string, string)>)
  datatype Command = Command(verb: string, key: string, arg: Arg)

  /** The fields `setUser` may set. */
  datatype User = User(nickname: Option<string>, email: Option<string>, phone: Option<string>, avatar: Option<string>)

  function SetIf(key: string, value: Option<string>): seq<Command> {
    if Truthy(value) then [Command("set", key, Text(value.value))] else []
  }

  /** The commands `setUser` queues. */
  function UserCommands(u: User): seq<Command> {
    SetIf("user:nickname", u.nickname) + SetIf("user:email", u.email)
    + SetIf("user:phone", u.phone) + SetIf("user:avatar", u.avatar)
  }

  function KeyRank(key: string): int {
    if key == "user:nickname" then 0
    else if key == "user:email" then 1
    else if key == "user:phone" then 2
    else 3
  }

  function FieldValue(u: User, key: string): Option<string> {
    if key == "user:nickname" then u.nickname
    else if key == "user:email" then u.email
    else if key == "user:phone" then u.phone
    else u.avatar
  }

  const UserKeys := ["user:nickname", "user:email", "user:phone", "user:avatar"]

  /** A `SetIf` is empty for an absent or empty value and otherwise one
      `set` of that value under the key. */
  lemma SetIfShape(key: string, value: Option<string>)
    ensures |SetIf(key, value)| == if Truthy(value) then 1 else 0
    ensures Truthy(value) ==> SetIf(key, value)[0] == Command("set", key, Text(value.value))
  {
  }

  /** Position `i` of the user commands, told by which block it falls in. */
  lemma UserCommandAt(u: User, i: int)
    requires 0 <= i < |UserCommands(u)|
    ensures var c := UserCommands(u)[i];
      && c.verb == "set" && c.key in UserKeys
      && Truthy(FieldValue(u, c.key)) && c.arg == Text(FieldValue(u, c.key).value)
      && KeyRank(c.key) <= i + (4 - |UserCommands(u)|)
      && i <= KeyRank(c.key)
  {
    var a, b, c, d := SetIf("user:nickname", u.nickname), SetIf("user:email", u.email),
                      SetIf("user:phone", u.phone), SetIf("user:avatar", u.avatar);
    SetIfShape("user:nickname", u.nickname);
    SetIfShape("user:email", u.email);
    SetIfShape("user:phone", u.phone);
    SetIfShape("user:avatar", u.avatar);
    var cs := UserCommands(u);
    assert cs == a + b + c + d;
    if i < |a| {
      assert cs[i] == a[0];
    } else if i < |a| + |b| {
      assert cs[i] == b[0];
    } else if i < |a| + |b| + |c| {
      assert cs[i] == c[0];
    } else {
      assert cs[i] == d[0];
    }
  }

  /** `setUser` queues one `set` per present field, with that field's value,
      in the order nickname, email, phone, avatar. */
  lemma UserCommandsOrdered(u: User)
    ensures var cs := UserCommands(u);
      && |cs| <= 4
      && (forall i :: 0 <= i < |cs| ==>
            cs[i].verb == "set" && cs[i].key in UserKeys
            && Truthy(FieldValue(u, cs[i].key)) && cs[i].arg == Text(FieldValue(u, cs[i].key).value))
      && (forall i, j :: 0 <= i < j < |cs| ==> KeyRank(cs[i].key) < KeyRank(cs[j].key))
  {
    var cs := UserCommands(u);
    SetIfShape("user:nickname", u.nickname);
    SetIfShape("user:email", u.email);
    SetIfShape("user:phone", u.phone);
    SetIfShape("user:avatar", u.avatar);
    forall i | 0 <= i < |cs| ensures
      cs[i].verb == "set" && cs[i].key in UserKeys
      && Truthy(FieldValue(u, cs[i].key)) && cs[i].arg == Text(FieldValue(u, cs[i].key).value)
    {
      UserCommandAt(u, i);
    }
    forall i, j | 0 <= i < j < |cs| ensures KeyRank(cs[i].key) < KeyRank(cs[j].key) {
      UserCommandsStrictlyRanked(u, i, j);
    }
  }

  lemma UserCommandsStrictlyRanked(u: User, i: int, j: int)
    requires 0 <= i < j < |UserCommands(u)|
    ensures KeyRank(UserCommands(u)[i].key) < KeyRank(UserCommands(u)[j].key)
  {
    var a, b, c, d := SetIf("user:nickname", u.nickname), SetIf("user:email", u.email),
                      SetIf("user:phone", u.phone), SetIf("user:avatar", u.avatar);
    SetIfShape("user:nickname", u.nickname);
    SetIfShape("user:email", u.email);
    SetIfShape("user:phone", u.phone);
    SetIfShape("user:avatar", u.avatar);
    var cs := UserCommands(u);
    assert cs == a + b + c + d;
  }

  /** Every present field is queued, and no absent or empty one. */
  lemma UserCommandsComplete(u: User, k: string)
    requires k in UserKeys
    ensures Truthy(FieldValue(u, k)) <==> exists i :: 0 <= i < |UserCommands(u)| && UserCommands(u)[i].key == k
  {
    var a, b, c, d := SetIf("user:nickname", u.nickname), SetIf("user:email", u.email),
                      SetIf("user:phone", u.phone), SetIf("user:avatar", u.avatar);
    SetIfShape("user:nickname", u.nickname);
    SetIfShape("user:email", u.email);
    SetIfShape("user:phone", u.phone);
    SetIfShape("user:avatar", u.avatar);
    var cs := UserCommands(u);
    assert cs == a + b + c + d;
    if Truthy(FieldValue(u, k)) {
      if k == "user:nickname" { assert cs[0].key == k; }
      else if k == "user:email" { assert cs[|a|].key == k; }
      else if k == "user:phone" { assert cs[|a| + |b|].key == k; }
      else { assert cs[|a| + |b| + |c|].key == k; }
    } else {
      forall i | 0 <= i < |cs| ensures cs[i].key != k {
        UserCommandAt(u, i);
      }
    }
  }

  /** `window.$crisp`: absent until the loader creates it, then a queue. */
  class ChatQueue {
    var queue: Option<seq<Command>>

    constructor(loaded: bool)
      ensures queue == if loaded then Some([]) else None
    {
      queue := if loaded then Some([]) else None;
    }

    /** `isChatAvailable`: the queue exists and holds something. */
    function IsChatAvailable(): (r: bool)
      reads this
      ensures r ==> queue.Some?
    {
      queue.Some? && |queue.value| > 0
    }

    /** Appends when the queue exists, and does nothing otherwise. */
    method Push(cs: seq<Command>)
      modifies this
      ensures old(queue).None? ==> queue == None
      ensures old(queue).Some? ==> queue == Some(old(queue).value + cs)
    {
      if queue.Some? {
        queue := Some(queue.value + cs);
      }
    }

    method OpenChat()
      modifies this
      ensures old(queue).Some? ==> queue == Some(old(queue).value + [Command("do", "chat:open", NoArg)]) && IsChatAvailable()
      ensures old(queue).None? ==> queue == None && !IsChatAvailable()
    {
      Push([Command("do", "chat:open", NoArg)]);
    }

    method CloseChat()
      modifies this
      ensures old(queue).Some? ==> queue == Some(old(queue).value + [Command("do", "chat:close", NoArg)])
      ensures old(queue).None? ==> queue == None
    {
      Push([Command("do", "chat:close", NoArg)]);
    }

    method ShowChat()
      modifies this
      ensures old(queue).Some? ==> queue == Some(old(queue).value + [Command("do", "chat:show", NoArg)])
      ensures old(queue).None? ==> queue == None
    {
      Push([Command("do", "chat:show", NoArg)]);
    }

    method HideChat()
      modifies this
      ensures old(queue).Some? ==> queue == Some(old(queue).value + [Command("do", "chat:hide", NoArg)])
      ensures old(queue).None? ==> queue == None
    {
      Push([Command("do", "chat:hide", NoArg)]);
    }

    /** `setUser`. */
    method SetUser(u: User)
      modifies this
      ensures old(queue).Some? ==> queue == Some(old(queue).value + UserCommands(u))
      ensures old(queue).None? ==> queue == None
    {
      Push(UserCommands(u));
    }

    method SendMessage(message: string)
      modifies this
      ensures old(queue).Some? ==> queue == Some(old(queue).value + [Command("do", "message:send", TextMessage(message))])
      ensures old(queue).None? ==> queue == None
    {
      Push([Command("do", "message:send", TextMessage(message))]);
    }

    method SetSessionData(data: seq<(string, string)>)
      modifies this
      ensures old(queue).Some? ==> queue == Some(old(queue).value + [Command("set", "session:data", Pairs(data))])
      ensures old(queue).None? ==> queue == None
    {
      Push([Command("set", "session:data", Pairs(data))]);
    }

    method SetSegments(segments: seq<string>)
      modifies this
      ensures old(queue).Some? ==> queue == Some(old(queue).value + [Command("set", "session:segments", Strings(segments))])
      ensures old(queue).None? ==> queue == None
    {
      Push([Command("set", "session:segments", Strings(segments))]);
    }
  }
}
