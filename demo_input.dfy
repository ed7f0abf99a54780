/**
  The demo's input box: its validity rule, input type, placeholder, the
  Enter key, the button and the URL error line. Whether the value parses
  as a URL is the browser's `URL` parser's answer, passed in.
 */
module DemoInput {
  import opened Wrappers
  import opened Text

  /** `isValidInput`. */
  predicate IsValidInput(activeTab: string, value: string, parsesAsUrl: bool) {
    if IsBlank(value) then false
    else if activeTab == "website" then parsesAsUrl
    else |Trim(value)| >= 3
  }

  /** Validity by tab: never for a blank value; on `website` exactly when
      the value parses as a URL; elsewhere when the trimmed value has at
      least three characters. */
  lemma ValidityByTab(activeTab: string, value: string, parsesAsUrl: bool)
    ensures IsBlank(value) ==> !IsValidInput(activeTab, value, parsesAsUrl)
    ensures activeTab == "website" && !IsBlank(value) ==> (IsValidInput(activeTab, value, parsesAsUrl) <==> parsesAsUrl)
    ensures activeTab != "website" ==> (IsValidInput(activeTab, value, parsesAsUrl) <==> |Trim(value)| >= 3)
  {
    if activeTab != "website" && |Trim(value)| >= 3 {
      assert Trim(value) != "";
    }
  }

  /** `getInputType`. */
  function InputType(activeTab: string): string {
    if activeTab == "website" then "url" else "text"
  }

  /** `getPlaceholder`: an explicit, non-empty placeholder wins; otherwise
      the tab's default. */
  function Placeholder(activeTab: string, placeholder: Option<string>): (r: string)
    ensures Truthy(placeholder) ==> r == placeholder.value
  {
    var fallback :=
      if activeTab == "website" then "Enter your website URL (e.g., https://example.com)"
      else if activeTab == "mobile" then "Describe your mobile app idea"
      else if activeTab == "tablet" then "Describe your tablet app concept"
      else "Enter your input";
    OrElse(placeholder, fallback)
  }

  /** `handleKeyPress`: whether the key triggers the preview. */
  function KeyTriggersPreview(key: string, activeTab: string, value: string, parsesAsUrl: bool): bool {
    key == "Enter" && IsValidInput(activeTab, value, parsesAsUrl)
  }

  function ButtonDisabled(activeTab: string, value: string, parsesAsUrl: bool): bool {
    !IsValidInput(activeTab, value, parsesAsUrl)
  }

  /** The red "valid URL" line under the box. */
  function ShowsUrlError(activeTab: string, value: string, parsesAsUrl: bool): bool {
    activeTab == "website" && value != "" && !IsValidInput(activeTab, value, parsesAsUrl)
  }

  /** The Enter key and the button agree: Enter previews exactly when the
      button is enabled; the URL error shows only on `website`, only for a
      non-empty value, and never together with an enabled button. */
  lemma InputRulesAgree(key: string, activeTab: string, value: string, parsesAsUrl: bool)
    ensures KeyTriggersPreview(key, activeTab, value, parsesAsUrl) <==> key == "Enter" && !ButtonDisabled(activeTab, value, parsesAsUrl)
    ensures ShowsUrlError(activeTab, value, parsesAsUrl) ==> activeTab == "website" && value != "" && ButtonDisabled(activeTab, value, parsesAsUrl)
    ensures activeTab == "website" && !IsBlank(value) ==> (ShowsUrlError(activeTab, value, parsesAsUrl) <==> !parsesAsUrl)
    ensures InputType(activeTab) == "url" <==> activeTab == "website"
  {
  }

  /** A value of white space only on `website` is refused but shows the
      URL error, since the error line tests the untrimmed value. */
  lemma BlankWebsiteValueShowsError(parsesAsUrl: bool)
    ensures !IsValidInput("website", " ", parsesAsUrl)
    ensures ShowsUrlError("website", " ", parsesAsUrl)
  {
    assert " "[0] == ' ' && IsWhitespace(' ');
    assert IsBlank(" ");
  }
}
