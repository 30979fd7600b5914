/**
 * src/components/Header.jsx: which navigation tab is active for the
 * current location, and the location a tab click navigates to.
 */
module Header {
  import opened Strings

  /** The parts of a router location the header reads or sets. */
  datatype Location = Location(pathname: string, search: string, hash: string)

  /** `location.hash.slice(1)`: the hash without its leading `#`. */
  function HashTab(hash: string): string
  {
    if hash == [] then [] else hash[1..]
  }

  /** `getActiveTab()`. */
  function ActiveTab(loc: Location): string
  {
    var p := loc.pathname;
    if p == "/" then
      var h := HashTab(loc.hash);
      if h != "" then h else "races"
    else if StartsWith(p, "/races") then "past-races"
    else if p == "/how-to-use" then "how-to-use"
    else if StartsWith(p, "/blog") then "blog"
    else if p == "/faq" then "faq"
    else if p == "/about" then "about"
    else "races"
  }

  /** On the home page the tab is the hash without `#`, or `races` when that is empty. */
  lemma HomeTab(loc: Location)
    requires loc.pathname == "/"
    ensures HashTab(loc.hash) != "" ==> ActiveTab(loc) == HashTab(loc.hash)
    ensures HashTab(loc.hash) == "" ==> ActiveTab(loc) == "races"
    ensures ActiveTab(loc) != ""
  {
  }

  /** Off the home page: a `/races` prefix gives `past-races`, a `/blog`
      prefix `blog`, the three exact paths their own names; every other
      path gives `races`, and the hash plays no part. */
  lemma OtherPageTab(loc: Location, hash: string)
    requires loc.pathname != "/"
    ensures StartsWith(loc.pathname, "/races") ==> ActiveTab(loc) == "past-races"
    ensures StartsWith(loc.pathname, "/blog") ==> ActiveTab(loc) == "blog"
    ensures loc.pathname == "/how-to-use" ==> ActiveTab(loc) == "how-to-use"
    ensures loc.pathname == "/faq" ==> ActiveTab(loc) == "faq"
    ensures loc.pathname == "/about" ==> ActiveTab(loc) == "about"
    ensures ActiveTab(loc) == "races" <==>
      !StartsWith(loc.pathname, "/races") && !StartsWith(loc.pathname, "/blog")
      && loc.pathname != "/how-to-use" && loc.pathname != "/faq" && loc.pathname != "/about"
    ensures ActiveTab(loc) in ["past-races", "blog", "how-to-use", "faq", "about", "races"]
    ensures ActiveTab(Location(loc.pathname, loc.search, hash)) == ActiveTab(loc)
  {
    if StartsWith(loc.pathname, "/blog") {
      assert !StartsWith(loc.pathname, "/races") by {
        if |loc.pathname| >= 6 { assert loc.pathname[1] == 'b'; }
      }
      assert loc.pathname != "/how-to-use" by { assert loc.pathname[1] == 'b'; }
    }
    if StartsWith(loc.pathname, "/races") {
      assert loc.pathname[1] == 'r';
    }
  }

  /** The router's reading of a path: the hash from the first `#`, then the
      search from the first `?` of what precedes it, then the path name. */
  function ParsePath(s: string): Location
  {
    var hashAt := if '#' in s then IndexOf(s, '#') else |s|;
    var rest := s[..hashAt];
    var searchAt := if '?' in rest then IndexOf(rest, '?') else |rest|;
    Location(rest[..searchAt], rest[searchAt..], s[hashAt..])
  }

  /** `handleTabClick(tab)`: the target `/#${tab}`. */
  function TabTarget(tab: string): string
  {
    "/#" + tab
  }

  /** A tab click leads to the home page with the tab as hash, and that
      location makes the clicked tab active (an empty tab shows `races`). */
  lemma TabClickRoundTrip(tab: string)
    ensures ParsePath(TabTarget(tab)) == Location("/", "", "#" + tab)
    ensures ActiveTab(ParsePath(TabTarget(tab))) == if tab == "" then "races" else tab
  {
    assert TabTarget(tab) == "/" + ['#'] + tab;
    IndexOfAfterPrefix("/", '#', tab);
    assert TabTarget(tab)[..1] == "/";
    assert TabTarget(tab)[1..] == "#" + tab;
    assert ("#" + tab)[1..] == tab;
  }

  /** The logo leads to the `races` tab. */
  lemma LogoClick()
    ensures ActiveTab(ParsePath("/#races")) == "races"
  {
    TabClickRoundTrip("races");
    assert TabTarget("races") == "/#races";
  }
}
