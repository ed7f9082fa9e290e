/**
 * The clicker's configuration record: the defaults written in the
 * ButtonClicker constructor, which a caller may override field by field.
 */
module Settings {
  datatype Config = Config(
    primarySelector: string,
    alternativeSelectors: seq<string>,
    xpathSelectors: seq<string>,
    clickInterval: int,        // ms between periodic clicks
    findButtonDelay: int,      // ms between discovery attempts
    visibilityCheckDelay: int, // ms waited once the page is ready
    maxAttempts: int,
    durationMs: int,           // total run budget
    primaryButtonColor: string,
    requiredClasses: seq<string>,
    debug: bool)

  /** The constructor's default selector for the Next button. */
  const DefaultPrimarySelector: string := "#content > div > div.main-container > nav > div.navigation-controls.universal-control-panel__navigation-controls > button.uikit-primary-button.uikit-primary-button_size_medium.navigation-controls__button.uikit-primary-button_next.navigation-controls__button_next"

  const DefaultAlternativeSelectors: seq<string> := [
    "button.uikit-primary-button.uikit-primary-button_next.navigation-controls__button_next",
    "button.navigation-controls__button_next",
    "button.uikit-primary-button_next",
    "nav button.uikit-primary-button_next",
    "div.navigation-controls button.uikit-primary-button_next",
    "button[class*=\"uikit-primary-button_next\"]",
    "button[class*=\"navigation-controls__button_next\"]"
  ]

  const DefaultXPathSelectors: seq<string> := [
    "//*[@id=\"content\"]/div/div[1]/nav/div[2]/button[2]",
    "/html/body/div[2]/div/div[1]/nav/div[2]/button[2]",
    "//button[contains(@class, \"uikit-primary-button_next\")]",
    "//button[contains(@class, \"navigation-controls__button_next\")]",
    "//nav//button[contains(@class, \"uikit-primary-button\")][2]"
  ]

  const DefaultPrimaryButtonColor: string := "rgba(95, 139, 217"

  const DefaultRequiredClasses: seq<string> := ["uikit-primary-button_next", "navigation-controls__button_next"]

  /** The defaults of the constructor, before `...config` overrides them. */
  function Defaults(): Config
  {
    Config(
      primarySelector := DefaultPrimarySelector,
      alternativeSelectors := DefaultAlternativeSelectors,
      xpathSelectors := DefaultXPathSelectors,
      clickInterval := 30000,
      findButtonDelay := 2000,
      visibilityCheckDelay := 100,
      maxAttempts := 10,
      durationMs := 2 * 60 * 60 * 1000,
      primaryButtonColor := DefaultPrimaryButtonColor,
      requiredClasses := DefaultRequiredClasses,
      debug := false)
  }
}
