/**
 * The page's configuration as the server injects it into `window.config`, its built-in
 * defaults, and the two readers that drop values the server left as unrendered template
 * placeholders ("{{ ... }}").
 */
module Config {
  import opened Wrappers
  import opened Strings
  import opened Types

  /** What `getConfig` returns when nothing was injected (or there is no `window`). */
  const Defaults: WindowConfig := WindowConfig(
    None, "", "Status", "", "", "", [], "20", "name", "none")

  /** `getConfig`: the injected configuration, or the defaults. Server-side rendering
      (no `window`) is the case `injected == None`. */
  function GetConfig(injected: Option<WindowConfig>): (c: WindowConfig)
    ensures injected.Some? ==> c == injected.value
    ensures injected.None? ==>
      && c.header == "Status" && c.maximumNumberOfResults == "20"
      && c.defaultSortBy == "name" && c.defaultFilterBy == "none"
      && c.buttons == [] && c.logo == "" && c.link == "" && c.title.None?
      && c.dashboardHeading == "" && c.dashboardSubheading == ""
  {
    if injected.Some? then injected.value else Defaults
  }

  /** A value left empty or still holding a template placeholder. */
  predicate Unset(s: string)
  {
    s == "" || Contains(s, "{{")
  }

  /** `getLogo`: the logo, or '' when it is unset. */
  function GetLogo(injected: Option<WindowConfig>): string
  {
    var logo := GetConfig(injected).logo;
    if Unset(logo) then "" else logo
  }

  /** `getLink`: the link, or null when it is unset. */
  function GetLink(injected: Option<WindowConfig>): Option<string>
  {
    var link := GetConfig(injected).link;
    if Unset(link) then None else Some(link)
  }

  /** The logo is passed through exactly when it is set, and otherwise is ''; either
      way no placeholder reaches the page. */
  lemma LogoMeaning(injected: Option<WindowConfig>)
    ensures var logo := GetConfig(injected).logo;
      && (GetLogo(injected) == logo <==> !Contains(logo, "{{"))
      && (GetLogo(injected) == "" <==> Unset(logo))
      && !Contains(GetLogo(injected), "{{")
  {
    EmptyHasNoPlaceholder();
  }

  /** The link is given exactly when it is set, and a given link is the configured one,
      never empty and free of placeholders. */
  lemma LinkMeaning(injected: Option<WindowConfig>)
    ensures var link := GetConfig(injected).link;
      && (GetLink(injected).Some? <==> !Unset(link))
      && (GetLink(injected).Some? ==>
            GetLink(injected).value == link && link != "" && !Contains(link, "{{"))
  {
  }

  /** Without an injected configuration there is neither logo nor link. */
  lemma DefaultsHaveNoBrand()
    ensures GetLogo(None) == "" && GetLink(None) == None
  {
  }

  lemma EmptyHasNoPlaceholder()
    ensures !Contains("", "{{")
  {
    assert !StartsWith("", "{{");
  }
}
