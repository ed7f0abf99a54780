/**
  The demo section of the redesigned home page: the same tab, input and
  preview flag, with a tab switch handler taking any tab name.
 */
module DemoSection {
  import opened Text

  class DemoState {
    var activeTab: string
    var inputValue: string
    var showDemo: bool

    constructor()
      ensures activeTab == "website" && inputValue == "" && !showDemo
    {
      activeTab := "website";
      inputValue := "";
      showDemo := false;
    }

    method SetInput(value: string)
      modifies this
      ensures inputValue == value && activeTab == old(activeTab) && showDemo == old(showDemo)
    {
      inputValue := value;
    }

    /** `handlePreview`: never changes the tab or the input. */
    method HandlePreview()
      modifies this
      ensures showDemo == (old(showDemo) || !IsBlank(old(inputValue)))
      ensures activeTab == old(activeTab) && inputValue == old(inputValue)
    {
      if !IsBlank(inputValue) {
        showDemo := true;
      }
    }

    /** `handleTabSwitch`. */
    method HandleTabSwitch(tab: string)
      modifies this
      ensures activeTab == tab && !showDemo && inputValue == ""
    {
      activeTab := tab;
      showDemo := false;
      inputValue := "";
    }
  }
}
