/** The background script: the allow-list check and the tab-update
    listener that puts up a warning for a page outside the list. */
module Background {

  import opened Wrappers
  import opened Text
  import opened Chrome

  /** `new URL(u).hostname`, with `None` where the URL constructor throws.
      URL parsing itself is not modelled; every function below takes it as
      a parameter and holds for any such parser. */
  type HostnameOf = string -> Option<string>

  /** The callback inside `some`: the entry's hostname occurs in the
      current URL's hostname; a parse failure of either is no match. A
      match needs both hostnames, the entry's no longer than the URL's, and
      an entry with the URL's own hostname always matches. */
  function EntryMatches(entry: string, url: string, hostname: HostnameOf): (r: bool)
    ensures r ==> hostname(entry).Some? && hostname(url).Some?
                  && |hostname(entry).value| <= |hostname(url).value|
    ensures hostname(entry).Some? && hostname(entry) == hostname(url) ==> r
  {
    match (hostname(entry), hostname(url))
    case (Some(allowedDomain), Some(currentDomain)) =>
      assert allowedDomain == currentDomain ==> OccursAt(currentDomain, allowedDomain, 0);
      Contains(currentDomain, allowedDomain)
    case _ => false
  }

  /** `allowedWebsites.some(...)`. */
  function AnyEntryMatches(entries: seq<string>, url: string, hostname: HostnameOf): (r: bool)
    ensures r <==> exists i :: 0 <= i < |entries| && EntryMatches(entries[i], url, hostname)
  {
    if entries == [] then false
    else
      var rest := AnyEntryMatches(entries[1..], url, hostname);
      assert forall i :: 1 <= i < |entries| ==> entries[i] == entries[1..][i - 1];
      EntryMatches(entries[0], url, hostname) || rest
  }

  /** `isUrlAllowed(url)` against the stored allow-list. */
  function IsUrlAllowed(items: map<string, Value>, url: string, hostname: HostnameOf): (r: bool)
    ensures r <==> exists i :: 0 <= i < |AllowedWebsites(items)| && EntryMatches(AllowedWebsites(items)[i], url, hostname)
  {
    AnyEntryMatches(AllowedWebsites(items), url, hostname)
  }

  /** A URL is allowed exactly when some entry parses to a hostname that
      occurs in the URL's parsed hostname. */
  lemma AllowedIff(items: map<string, Value>, url: string, hostname: HostnameOf)
    ensures IsUrlAllowed(items, url, hostname) <==>
              hostname(url).Some?
              && exists i :: 0 <= i < |AllowedWebsites(items)|
                   && hostname(AllowedWebsites(items)[i]).Some?
                   && Contains(hostname(url).value, hostname(AllowedWebsites(items)[i]).value)
  {
  }

  /** A missing or empty allow-list allows nothing. */
  lemma EmptyListAllowsNothing(items: map<string, Value>, url: string, hostname: HostnameOf)
    requires AllowedWebsites(items) == []
    ensures !IsUrlAllowed(items, url, hostname)
  {
  }

  /** A URL that does not parse is allowed by no list. */
  lemma UnparsableUrlNeverAllowed(items: map<string, Value>, url: string, hostname: HostnameOf)
    requires hostname(url).None?
    ensures !IsUrlAllowed(items, url, hostname)
  {
  }

  /** An entry that does not parse (such as a bare `example.com` without a
      scheme) never matches: adding it to a list changes no decision. */
  lemma UnparsableEntryIsInert(a: seq<string>, e: string, b: seq<string>, url: string, hostname: HostnameOf)
    requires hostname(e).None?
    ensures AnyEntryMatches(a + [e] + b, url, hostname) == AnyEntryMatches(a + b, url, hostname)
  {
    var l, m := a + [e] + b, a + b;
    assert !EntryMatches(e, url, hostname);
    if AnyEntryMatches(l, url, hostname) {
      var i :| 0 <= i < |l| && EntryMatches(l[i], url, hostname);
      if i < |a| { assert l[i] == m[i]; } else { assert l[i] == m[i - 1]; }
    }
    if AnyEntryMatches(m, url, hostname) {
      var i :| 0 <= i < |m| && EntryMatches(m[i], url, hostname);
      if i < |a| { assert m[i] == l[i]; } else { assert m[i] == l[i + 1]; }
    }
  }

  /** An entry whose hostname is empty allows every URL that parses. */
  lemma EmptyHostnameAllowsAll(entries: seq<string>, i: nat, url: string, hostname: HostnameOf)
    requires i < |entries| && hostname(entries[i]) == Some("") && hostname(url).Some?
    ensures AnyEntryMatches(entries, url, hostname)
  {
    ContainsEmpty(hostname(url).value);
    assert EntryMatches(entries[i], url, hostname);
  }

  /** Containment is loose: given the usual hostnames, the entry
      `https://example.com` allows `sub.example.com` and also
      `notexample.com`. */
  lemma LooseContainment(hostname: HostnameOf, sub: string, lookalike: string)
    requires hostname("https://example.com") == Some("example.com")
    requires hostname(sub) == Some("sub.example.com")
    requires hostname(lookalike) == Some("notexample.com")
    ensures AnyEntryMatches(["https://example.com"], sub, hostname)
    ensures AnyEntryMatches(["https://example.com"], lookalike, hostname)
  {
    assert OccursAt("sub.example.com", "example.com", 4);
    assert OccursAt("notexample.com", "example.com", 3);
    assert EntryMatches(["https://example.com"][0], sub, hostname);
    assert EntryMatches(["https://example.com"][0], lookalike, hostname);
  }

  // ---------------------------------------------------------------------
  // The tab-update listener

  /** The notification options passed to `chrome.notifications.create`. */
  datatype Notification = Notification(kind: string, iconUrl: string, title: string, message: string)

  const Warning: Notification := Notification(
    "basic", "images/warning_icon.png", "Study Focus Warning",
    "HEY! This website is NOT in your allowed list. Stay focused on the task at hand!")

  /** The parts of a `tabs.onUpdated` event the listener reads:
      `changeInfo.status` and `tab.url`. */
  datatype TabUpdate = TabUpdate(tabId: int, status: Option<string>, url: Option<string>)

  /** `url.startsWith('http') || url.startsWith('https')`; the second test
      is covered by the first. */
  function IsWebUrl(url: string): (r: bool)
    ensures r <==> StartsWith(url, "http")
  {
    if StartsWith(url, "https") then
      assert url[..4] == url[..5][..4];
      true
    else StartsWith(url, "http")
  }

  /** The guard: a finished load of a page whose URL (present and
      non-empty, so truthy) starts with `http` and is not allowed. */
  function ShouldWarn(ev: TabUpdate, items: map<string, Value>, hostname: HostnameOf): (r: bool)
    ensures r <==> && ev.status == Some("complete")
                   && ev.url.Some? && StartsWith(ev.url.value, "http")
                   && !IsUrlAllowed(items, ev.url.value, hostname)
  {
    && ev.status == Some("complete")
    && ev.url.Some? && ev.url.value != ""
    && IsWebUrl(ev.url.value)
    && !IsUrlAllowed(items, ev.url.value, hostname)
  }

  /** The notifications the listener creates for one event. */
  function OnTabUpdated(ev: TabUpdate, items: map<string, Value>, hostname: HostnameOf): (notes: seq<Notification>)
    ensures |notes| <= 1
    ensures forall n :: n in notes ==> n == Warning
    ensures |notes| == 1 <==>
              && ev.status == Some("complete")
              && ev.url.Some? && StartsWith(ev.url.value, "http")
              && !IsUrlAllowed(items, ev.url.value, hostname)
  {
    if ev.status == Some("complete") && ev.url.Some? && ev.url.value != "" then
      if IsWebUrl(ev.url.value) then
        if !IsUrlAllowed(items, ev.url.value, hostname) then [Warning] else []
      else []
    else
      assert ev.url.Some? && ev.url.value == "" ==> !StartsWith(ev.url.value, "http");
      []
  }

  /** The notifications created for a run of events, in order. */
  function OnTabUpdates(events: seq<TabUpdate>, items: map<string, Value>, hostname: HostnameOf): seq<Notification> {
    if events == [] then []
    else OnTabUpdated(events[0], items, hostname) + OnTabUpdates(events[1..], items, hostname)
  }

  /** The listener keeps no history: the notifications for two runs of
      events are those of each run on its own, so nothing is debounced. */
  lemma {:induction false} OnTabUpdatesAppend(a: seq<TabUpdate>, b: seq<TabUpdate>, items: map<string, Value>, hostname: HostnameOf)
    ensures OnTabUpdates(a + b, items, hostname) == OnTabUpdates(a, items, hostname) + OnTabUpdates(b, items, hostname)
  {
    if a == [] {
      assert a + b == b;
    } else {
      var head := OnTabUpdated(a[0], items, hostname);
      var ab := a + b;
      assert ab[0] == a[0];
      assert ab[1..] == a[1..] + b;
      OnTabUpdatesAppend(a[1..], b, items, hostname);
      calc {
        OnTabUpdates(ab, items, hostname);
        head + OnTabUpdates(a[1..] + b, items, hostname);
        head + (OnTabUpdates(a[1..], items, hostname) + OnTabUpdates(b, items, hostname));
        (head + OnTabUpdates(a[1..], items, hostname)) + OnTabUpdates(b, items, hostname);
      }
    }
  }

  /** The same qualifying event for the same tab, delivered `n` times,
      creates `n` warnings. */
  lemma {:induction false} RepeatedEventsWarnEachTime(ev: TabUpdate, n: nat, items: map<string, Value>, hostname: HostnameOf)
    requires ShouldWarn(ev, items, hostname)
    ensures OnTabUpdates(seq(n, _ => ev), items, hostname) == seq(n, _ => Warning)
  {
    if n > 0 {
      var evs := seq(n, _ => ev);
      assert evs[1..] == seq(n - 1, _ => ev);
      RepeatedEventsWarnEachTime(ev, n - 1, items, hostname);
      assert seq(n, _ => Warning) == [Warning] + seq(n - 1, _ => Warning);
    }
  }

  /** The decision reads nothing from storage but the allow-list: no break
      or phase flag changes whether a warning is created. */
  lemma OnlyTheAllowListMatters(ev: TabUpdate, items1: map<string, Value>, items2: map<string, Value>, hostname: HostnameOf)
    requires AllowedWebsites(items1) == AllowedWebsites(items2)
    ensures OnTabUpdated(ev, items1, hostname) == OnTabUpdated(ev, items2, hostname)
  {
  }
}
