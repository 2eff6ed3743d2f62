/** The browser window's navigation: a history list with a cursor, the
    page shown, and the text in the address bar. Turning typed text into a
    URL (`new URL(...).toString()`) is a library call; it is a parameter
    here, a partial function that may reject its input. */
module BrowserApp {
  import opened Text

  /** The start page, and where the home button leads. */
  const HomeUrl := "https://wikipedia.org"

  /** The history list, the cursor into it, the page shown, and the
      address bar's text. */
  datatype Nav = Nav(history: seq<string>, index: int, currentUrl: string, url: string)

  /** A window as it opens. */
  const Start := Nav([HomeUrl], 0, HomeUrl, HomeUrl)

  /** The cursor points into the history, at the page shown. */
  predicate Valid(n: Nav) {
    0 <= n.index < |n.history| && n.currentUrl == n.history[n.index]
  }

  /** Text that does not start with `http` is taken to be a host name. */
  function WithScheme(s: string): (r: string)
    ensures "http" <= r
    ensures "http" <= s ==> r == s
    ensures !("http" <= s) ==> "https://" <= r && r[|"https://"|..] == s
  {
    if "http" <= s then s else "https://" + s
  }

  /** `navigate(newUrl)`: when the URL parses, it is shown and pushed just
      after the cursor, dropping any forward entries; otherwise nothing
      changes. */
  function Visit(n: Nav, newUrl: string, parse: string -> Option<string>): (r: Nav)
    requires 0 <= n.index < |n.history|
    ensures parse(WithScheme(newUrl)).None? ==> r == n
  {
    match parse(WithScheme(newUrl))
    case None => n
    case Some(u) => Nav(n.history[..n.index + 1] + [u], n.index + 1, u, u)
  }

  /** `goBack`: one entry back, when there is one. */
  function Back(n: Nav): (r: Nav)
    requires 0 <= n.index < |n.history|
    ensures r.history == n.history && 0 <= r.index < |r.history|
  {
    if n.index > 0 then n.(index := n.index - 1, currentUrl := n.history[n.index - 1], url := n.history[n.index - 1])
    else n
  }

  /** `goForward`: one entry forward, when there is one. */
  function Forward(n: Nav): (r: Nav)
    requires 0 <= n.index < |n.history|
    ensures r.history == n.history && 0 <= r.index < |r.history|
  {
    if n.index < |n.history| - 1 then
      n.(index := n.index + 1, currentUrl := n.history[n.index + 1], url := n.history[n.index + 1])
    else n
  }

  /** A successful navigation ends at the newest entry, keeps the history up
      to the cursor, and shows the new page in both places; every
      navigation keeps the cursor valid. */
  lemma NavigateSpec(n: Nav, newUrl: string, parse: string -> Option<string>)
    requires Valid(n)
    ensures var r := Visit(n, newUrl, parse);
      Valid(r) &&
      (parse(WithScheme(newUrl)).Some? ==>
         var u := parse(WithScheme(newUrl)).value;
         r.index == n.index + 1 && r.index == |r.history| - 1 &&
         r.history[..r.index] == n.history[..n.index + 1] &&
         r.currentUrl == u && r.url == u)
  {
  }

  /** After a navigation there is nowhere to go forward. */
  lemma NavigateDropsForward(n: Nav, newUrl: string, parse: string -> Option<string>)
    requires Valid(n) && parse(WithScheme(newUrl)).Some?
    ensures Forward(Visit(n, newUrl, parse)) == Visit(n, newUrl, parse)
  {
  }

  /** Back and forward move the cursor by at most one, keep it valid, and
      never touch the history itself. */
  lemma MovesKeepValid(n: Nav)
    requires Valid(n)
    ensures Valid(Back(n)) && Back(n).history == n.history
    ensures Valid(Forward(n)) && Forward(n).history == n.history
    ensures Back(n) == n <==> n.index == 0
    ensures Forward(n) == n <==> n.index == |n.history| - 1
  {
  }

  /** Going back and then forward returns to the page shown before, with
      the address bar showing it too. */
  lemma BackThenForward(n: Nav)
    requires Valid(n) && n.index > 0
    ensures Forward(Back(n)) == n.(url := n.currentUrl)
  {
  }

  /** Going forward and then back does the same. */
  lemma ForwardThenBack(n: Nav)
    requires Valid(n) && n.index < |n.history| - 1
    ensures Back(Forward(n)) == n.(url := n.currentUrl)
  {
  }

  /** One browser window. */
  class BrowserView {
    var history: seq<string>
    var historyIndex: int
    var currentUrl: string
    var url: string

    function State(): Nav
      reads this
    {
      Nav(history, historyIndex, currentUrl, url)
    }

    constructor()
      ensures State() == Start && Valid(State())
    {
      history := [HomeUrl];
      historyIndex := 0;
      currentUrl := HomeUrl;
      url := HomeUrl;
    }

    /** Typing into the address bar. */
    method SetUrl(text: string)
      modifies this
      ensures State() == old(State()).(url := text)
    {
      url := text;
    }

    method Navigate(newUrl: string, parse: string -> Option<string>)
      requires Valid(State())
      modifies this
      ensures State() == Visit(old(State()), newUrl, parse)
      ensures Valid(State())
    {
      NavigateSpec(State(), newUrl, parse);
      var parsed := parse(WithScheme(newUrl));
      if parsed.None? {
        return;
      }
      var finalUrl := parsed.value;
      currentUrl := finalUrl;
      url := finalUrl;
      history := history[..historyIndex + 1] + [finalUrl];
      historyIndex := historyIndex + 1;
    }

    /** `handleSubmit`: navigate to what the address bar holds. */
    method HandleSubmit(parse: string -> Option<string>)
      requires Valid(State())
      modifies this
      ensures State() == Visit(old(State()), old(url), parse)
      ensures Valid(State())
    {
      Navigate(url, parse);
    }

    method GoBack()
      requires Valid(State())
      modifies this
      ensures State() == Back(old(State()))
      ensures Valid(State())
    {
      MovesKeepValid(State());
      if historyIndex > 0 {
        var newIndex := historyIndex - 1;
        historyIndex := newIndex;
        var newUrl := history[newIndex];
        currentUrl := newUrl;
        url := newUrl;
      }
    }

    method GoForward()
      requires Valid(State())
      modifies this
      ensures State() == Forward(old(State()))
      ensures Valid(State())
    {
      MovesKeepValid(State());
      if historyIndex < |history| - 1 {
        var newIndex := historyIndex + 1;
        historyIndex := newIndex;
        var newUrl := history[newIndex];
        currentUrl := newUrl;
        url := newUrl;
      }
    }

    /** `goHome`: a navigation to the start page. */
    method GoHome(parse: string -> Option<string>)
      requires Valid(State())
      modifies this
      ensures State() == Visit(old(State()), HomeUrl, parse)
      ensures Valid(State())
    {
      Navigate(HomeUrl, parse);
    }
  }
}
