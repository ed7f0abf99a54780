/**
  The home page's interactive demo: a tab, the text typed in, and whether
  the preview is shown.
 */
module InteractiveDemo {
  import opened Text

  const WebsitePrompt := "Enter your website URL (e.g., https://example.com)"
  const IdeaPrompt := "Describe your app idea (e.g., A fitness tracking app for runners)"

  class DemoWidget {
    var activeTab: string
    var inputValue: string
    var showDemo: bool

    constructor()
      ensures activeTab == "website" && inputValue == "" && !showDemo
    {
      activeTab := "website";
      inputValue := "";
      showDemo := false;
    }

    /** The preview button's `disabled` rule. */
    predicate PreviewDisabled()
      reads this
    {
      IsBlank(inputValue)
    }

    /** The input's placeholder. */
    function Placeholder(): (r: string)
      reads this
      ensures activeTab == "website" ==> r == WebsitePrompt
      ensures activeTab != "website" ==> r == IdeaPrompt
    {
      if activeTab == "website" then WebsitePrompt else IdeaPrompt
    }

    method SetInput(value: string)
      modifies this
      ensures inputValue == value && activeTab == old(activeTab) && showDemo == old(showDemo)
    {
      inputValue := value;
    }

    /** `handlePreview`: shows the demo when something non-blank is typed,
        and otherwise does nothing. */
    method HandlePreview()
      modifies this
      ensures !IsBlank(old(inputValue)) ==> showDemo
      ensures IsBlank(old(inputValue)) ==> showDemo == old(showDemo)
      ensures activeTab == old(activeTab) && inputValue == old(inputValue)
    {
      if !IsBlank(inputValue) {
        showDemo := true;
      }
    }

    /** `resetDemo`. */
    method ResetDemo()
      modifies this
      ensures !showDemo && inputValue == "" && activeTab == old(activeTab)
    {
      showDemo := false;
      inputValue := "";
    }

    /** A click on the `website` or the `idea` tab: select it, then reset. */
    method SelectTab(tab: string)
      requires tab == "website" || tab == "idea"
      modifies this
      ensures activeTab == tab && !showDemo && inputValue == ""
      ensures PreviewDisabled()
    {
      activeTab := tab;
      ResetDemo();
      assert Trim("") == "";
    }
  }
}
