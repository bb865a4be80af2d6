/**
 * Turn-by-turn hand-off of app/src/services/navigation.ts: the per-platform
 * list of navigation apps and their deep links, the preferred-app lookup,
 * the fallback to the Google Maps web link when an app cannot be opened,
 * and the coordinate extraction that fallback relies on.
 *
 * Coordinates arrive as the text the template literals render them to;
 * the URL opener is a pair of oracles.
 */
module Navigation {
  import opened Wrappers

  datatype Platform = IOS | Android | OtherPlatform

  datatype NavigationOption = NavigationOption(name: string, url: string, available: bool)

  const WazeName := "Waze"
  const GoogleName := "Google Maps"
  const AppleName := "Apple Maps"
  const GoogleDirections := "https://" + "www.google.com/maps/dir/" + "?api=1&destination="

  function Pair(lat: string, lng: string): string {
    lat + "," + lng
  }

  function WazeUrl(lat: string, lng: string): string {
    "waze://?ll=" + Pair(lat, lng) + "&navigate=yes"
  }

  function GoogleUrl(lat: string, lng: string): string {
    GoogleDirections + Pair(lat, lng)
  }

  function AppleUrl(lat: string, lng: string): string {
    AppleHead + Pair(lat, lng) + AppleTail
  }

  /** `getNavigationOptions`: Waze, Google Maps, and Apple Maps on iOS only; all marked available. */
  function GetNavigationOptions(lat: string, lng: string, platform: Platform): (opts: seq<NavigationOption>)
    ensures |opts| == (if platform == IOS then 3 else 2)
    ensures opts[0] == NavigationOption(WazeName, WazeUrl(lat, lng), true)
    ensures opts[1] == NavigationOption(GoogleName, GoogleUrl(lat, lng), true)
    ensures platform == IOS ==> opts[2] == NavigationOption(AppleName, AppleUrl(lat, lng), true)
  {
    var base := [NavigationOption(WazeName, WazeUrl(lat, lng), true),
                 NavigationOption(GoogleName, GoogleUrl(lat, lng), true)];
    if platform == IOS then base + [NavigationOption(AppleName, AppleUrl(lat, lng), true)] else base
  }

  // ---------------------------------------------------------------------
  // Coordinate extraction: the regular expressions /ll=([^&]+)/ and /daddr=([^&]+)/
  // ---------------------------------------------------------------------

  /** `key` occurs at `p` and is followed by at least one character other than '&'. */
  predicate MatchAt(url: string, key: string, p: int) {
    0 <= p && p + |key| < |url| && url[p..p + |key|] == key && url[p + |key|] != '&'
  }

  /** The leftmost match at or after `from`. */
  function FirstMatch(url: string, key: string, from: nat): (r: Option<nat>)
    ensures r.Some? ==> from <= r.value && MatchAt(url, key, r.value)
    ensures forall q :: from <= q && (r.None? || q < r.value) ==> !MatchAt(url, key, q)
    decreases |url| - from
  {
    if from + |key| >= |url| then None
    else if MatchAt(url, key, from) then Some(from)
    else FirstMatch(url, key, from + 1)
  }

  /** The longest run without '&' starting at `start`. */
  function RunFrom(url: string, start: nat): (r: string)
    requires start <= |url|
    ensures r <= url[start..] && '&' !in r
    ensures start + |r| == |url| || url[start + |r|] == '&'
    decreases |url| - start
  {
    if start == |url| || url[start] == '&' then []
    else [url[start]] + RunFrom(url, start + 1)
  }

  /** The run is the only prefix without '&' that ends at an '&' or at the end. */
  lemma RunIsUnique(url: string, start: nat, c: string)
    requires start <= |url| && c <= url[start..] && '&' !in c
    requires start + |c| == |url| || url[start + |c|] == '&'
    ensures RunFrom(url, start) == c
  {
    var r := RunFrom(url, start);
    assert forall i :: 0 <= i < |r| ==> url[start + i] == r[i] != '&';
    assert forall i :: 0 <= i < |c| ==> url[start + i] == c[i] != '&';
    assert |r| == |c|;
    assert r == url[start..][..|r|] == c;
  }

  /** `extractCoordinatesFromUrl`: the text after the first usable "ll=", else after "daddr=", else empty. */
  function ExtractCoordinates(url: string): (r: string)
    ensures '&' !in r
    ensures r != "" <==> FirstMatch(url, "ll=", 0).Some? || FirstMatch(url, "daddr=", 0).Some?
  {
    match FirstMatch(url, "ll=", 0)
    case Some(p) => RunFrom(url, p + 3)
    case None =>
      match FirstMatch(url, "daddr=", 0)
      case Some(p) => RunFrom(url, p + 6)
      case None => ""
  }

  function StartsWith(s: string, prefix: string): bool {
    prefix <= s
  }

  /** The web link used when an app cannot open: web links as they are, others rebuilt for Google Maps. */
  function FallbackUrl(url: string): (f: string)
    ensures StartsWith(url, "http") ==> f == url
    ensures !StartsWith(url, "http") ==> f == GoogleDirections + ExtractCoordinates(url)
  {
    if StartsWith(url, "http") then url else GoogleDirections + ExtractCoordinates(url)
  }

  /** Rendered coordinates: JavaScript number text, which never holds '&' or '='. */
  predicate CoordinateText(s: string) {
    '&' !in s && '=' !in s
  }

  /** The Waze link yields back exactly the coordinate pair it was built from. */
  lemma {:induction false} WazeCoordinatesRoundTrip(lat: string, lng: string)
    requires CoordinateText(lat) && CoordinateText(lng)
    ensures ExtractCoordinates(WazeUrl(lat, lng)) == Pair(lat, lng)
  {
    var url := WazeUrl(lat, lng);
    var head := "waze://?ll=";
    assert url[..11] == head;
    assert url[11] == (if |lat| > 0 then lat[0] else ',');
    assert MatchAt(url, "ll=", 8);
    assert forall i :: 0 <= i < 10 ==> head[i] != '=';
    forall q | 0 <= q < 8
      ensures !MatchAt(url, "ll=", q)
    {
      assert url[q..q + 3][2] == url[q + 2] == head[q + 2];
    }
    var m := FirstMatch(url, "ll=", 0);
    assert m == Some(8);
    var c := Pair(lat, lng);
    assert url[11..] == c + "&navigate=yes";
    assert '&' !in c;
    RunIsUnique(url, 11, c);
  }

  const AppleHead := "http://" + "maps.apple.com/?daddr="
  const AppleTail := "&dirflg=d"

  /** In the Apple link's fixed head the only '=' closes "daddr=", and no '&' occurs. */
  lemma AppleHeadShape()
    ensures |AppleHead| == 29 && AppleHead[23..] == "daddr=" && AppleHead[27] == 'r'
    ensures forall i :: 0 <= i < 28 ==> AppleHead[i] != '=' && AppleHead[i] != '&'
  {
    var a, b := "http://", "maps.apple.com/?daddr=";
    assert forall i :: 0 <= i < |a| ==> a[i] != '=' && a[i] != '&';
    assert forall i :: 0 <= i < |b| - 1 ==> b[i] != '=' && b[i] != '&';
    assert forall i :: 0 <= i < 28 ==> AppleHead[i] == (if i < 7 then a[i] else b[i - 7]);
  }

  /** The Apple link has '=' only after "daddr" and after "dirflg". */
  lemma AppleEquals(lat: string, lng: string)
    requires CoordinateText(lat) && CoordinateText(lng)
    ensures var url := AppleUrl(lat, lng);
            && url == AppleHead + Pair(lat, lng) + AppleTail
            && url[27] == 'r' && url[|url| - 3] == 'g'
            && forall i :: 0 <= i < |url| && url[i] == '=' ==> i == 28 || i == |url| - 2
  {
    AppleHeadShape();
    var c := Pair(lat, lng);
    var url := AppleUrl(lat, lng);
    assert url == AppleHead + c + AppleTail;
    assert forall i :: 0 <= i < |c| ==> c[i] != '=';
    assert forall i :: 0 <= i < 29 ==> url[i] == AppleHead[i];
    assert forall i :: 29 <= i < 29 + |c| ==> url[i] == c[i - 29];
    assert forall i :: 29 + |c| <= i < |url| ==> url[i] == AppleTail[i - 29 - |c|];
    assert forall j :: 0 <= j < |AppleTail| && AppleTail[j] == '=' ==> j == 7;
  }

  /** The Apple Maps link yields back exactly its coordinate pair, through the "daddr=" branch. */
  lemma {:induction false} AppleCoordinatesRoundTrip(lat: string, lng: string)
    requires CoordinateText(lat) && CoordinateText(lng)
    ensures ExtractCoordinates(AppleUrl(lat, lng)) == Pair(lat, lng)
  {
    AppleHeadShape();
    AppleEquals(lat, lng);
    var c := Pair(lat, lng);
    var url := AppleUrl(lat, lng);
    forall q | 0 <= q
      ensures !MatchAt(url, "ll=", q)
    {
      if q + 3 < |url| {
        assert url[q..q + 3][1] == url[q + 1] && url[q..q + 3][2] == url[q + 2];
      }
    }
    assert FirstMatch(url, "ll=", 0).None?;
    assert url[..29] == AppleHead;
    assert url[23..29] == AppleHead[23..];
    assert url[29] == (if |lat| > 0 then lat[0] else ',');
    assert MatchAt(url, "daddr=", 23);
    forall q | 0 <= q < 23
      ensures !MatchAt(url, "daddr=", q)
    {
      assert url[q..q + 6][5] == url[q + 5];
    }
    assert FirstMatch(url, "daddr=", 0) == Some(23);
    assert url[29..] == c + AppleTail;
    assert '&' !in c;
    RunIsUnique(url, 29, c);
  }

  /** An uninstalled Waze falls back to the Google Maps web link for the same coordinates. */
  lemma WazeFallsBackToGoogle(lat: string, lng: string)
    requires CoordinateText(lat) && CoordinateText(lng)
    ensures FallbackUrl(WazeUrl(lat, lng)) == GoogleUrl(lat, lng)
  {
    WazeIsNotWeb(lat, lng);
    WazeCoordinatesRoundTrip(lat, lng);
  }

  /** The Waze link starts with `w`, so it is not taken for a web link. */
  lemma WazeIsNotWeb(lat: string, lng: string)
    ensures !StartsWith(WazeUrl(lat, lng), "http")
  {
    assert WazeUrl(lat, lng)[0] == 'w';
  }

  lemma HttpPrefix(s: string)
    requires |s| >= 4 && s[0] == 'h' && s[1] == 't' && s[2] == 't' && s[3] == 'p'
    ensures StartsWith(s, "http")
  {
    assert s[..4] == "http";
  }

  /** Google and Apple links are web links and are used unchanged. */
  lemma WebLinksKept(lat: string, lng: string)
    ensures FallbackUrl(GoogleUrl(lat, lng)) == GoogleUrl(lat, lng)
    ensures FallbackUrl(AppleUrl(lat, lng)) == AppleUrl(lat, lng)
  {
    HttpPrefix(GoogleUrl(lat, lng));
    HttpPrefix(AppleUrl(lat, lng));
  }

  // ---------------------------------------------------------------------
  // Opening
  // ---------------------------------------------------------------------

  /**
   * The platform linker: `canOpen(url)` is None when the query throws,
   * `opens(url)` is false when opening throws.
   */
  datatype Linker = Linker(canOpen: string -> Option<bool>, opens: string -> bool)

  datatype OpenResult = OpenResult(success: bool, target: Option<string>, alert: Option<string>)

  function OpenFailedText(appName: string): string {
    "No se pudo abrir " + appName + ". Intenta instalarlo desde la tienda de aplicaciones."
  }

  /**
   * `openNavigationUrl`: the URL itself when it can be opened, otherwise its
   * fallback; any thrown error ends in the alert naming the app and false.
   */
  function OpenNavigationUrl(url: string, appName: string, linker: Linker): (r: OpenResult)
    ensures r.success <==> r.target.Some?
    ensures r.success <==> r.alert.None?
    ensures r.success ==> r.target.value == (if linker.canOpen(url) == Some(true) then url else FallbackUrl(url))
    ensures r.success ==> linker.canOpen(url).Some? && linker.opens(r.target.value)
    ensures !r.success && linker.canOpen(url).Some? ==>
              !linker.opens(if linker.canOpen(url) == Some(true) then url else FallbackUrl(url))
    ensures !r.success ==> r.alert == Some(OpenFailedText(appName))
  {
    var failed := OpenResult(false, None, Some(OpenFailedText(appName)));
    match linker.canOpen(url)
    case None => failed
    case Some(can) =>
      var target := if can then url else FallbackUrl(url);
      if linker.opens(target) then OpenResult(true, Some(target), None) else failed
  }

  /** ASCII lower-casing, the part of `toLowerCase` app names use. */
  function Lower(s: string): (t: string)
    ensures |t| == |s|
    ensures forall i :: 0 <= i < |s| ==> t[i] == (if 'A' <= s[i] <= 'Z' then (s[i] as int + 32) as char else s[i])
  {
    if s == [] then [] else
      var c := s[0];
      [if 'A' <= c <= 'Z' then (c as int + 32) as char else c] + Lower(s[1..])
  }

  /** The option's name equals `pref` once both are lower-cased. */
  predicate NameMatches(option: NavigationOption, pref: string) {
    Lower(option.name) == Lower(pref)
  }

  /** The first option whose name matches `pref` ignoring case. */
  function FindOption(options: seq<NavigationOption>, pref: string): (i: Option<nat>)
    ensures i.Some? ==> i.value < |options| && NameMatches(options[i.value], pref)
    ensures forall j :: 0 <= j < |options| && (i.None? || j < i.value) ==> !NameMatches(options[j], pref)
  {
    if options == [] then None
    else if NameMatches(options[0], pref) then Some(0)
    else
      match FindOption(options[1..], pref)
      case Some(k) => Some(k + 1)
      case None => None
  }

  datatype DialogButton = OpenButton(option: NavigationOption) | CancelButton

  function ButtonText(b: DialogButton): string {
    match b
    case OpenButton(o) => o.name
    case CancelButton => "Cancelar"
  }

  const DialogTitle := "Abrir navegación"
  const DialogMessage := "Elige tu app de navegación preferida:"

  datatype NavOutcome = Opened(result: OpenResult) | Dialog(title: string, message: string, buttons: seq<DialogButton>)

  /** `showNavigationDialog`: one button per option, in order, then Cancelar. */
  function NavigationDialog(options: seq<NavigationOption>): (o: NavOutcome)
    ensures o.Dialog? && o.title == DialogTitle && o.message == DialogMessage
    ensures |o.buttons| == |options| + 1 && o.buttons[|options|] == CancelButton
    ensures forall i :: 0 <= i < |options| ==> o.buttons[i] == OpenButton(options[i])
  {
    Dialog(DialogTitle, DialogMessage, seq(|options|, i requires 0 <= i < |options| => OpenButton(options[i])) + [CancelButton])
  }

  /** Option `i` is the first whose name matches a truthy preference. */
  predicate FirstMatchAt(options: seq<NavigationOption>, preferredApp: Option<string>, i: int) {
    && 0 <= i < |options|
    && TruthyText(preferredApp)
    && NameMatches(options[i], preferredApp.value)
    && forall j :: 0 <= j < i ==> !NameMatches(options[j], preferredApp.value)
  }

  /** There is no preference, or no option's name matches it. */
  predicate NoMatch(options: seq<NavigationOption>, preferredApp: Option<string>) {
    !TruthyText(preferredApp) || forall j :: 0 <= j < |options| ==> !NameMatches(options[j], preferredApp.value)
  }

  /** A match with no earlier match is what the lookup returns. */
  lemma FindOptionAt(options: seq<NavigationOption>, pref: string, i: nat)
    requires i < |options| && NameMatches(options[i], pref)
    requires forall j :: 0 <= j < i ==> !NameMatches(options[j], pref)
    ensures FindOption(options, pref) == Some(i)
  {
  }

  /** The lookup finds exactly the first match, and nothing when there is none. */
  lemma FindOptionFindsFirst(options: seq<NavigationOption>, preferredApp: Option<string>)
    ensures forall i :: FirstMatchAt(options, preferredApp, i) ==> FindOption(options, preferredApp.value) == Some(i)
    ensures NoMatch(options, preferredApp) && TruthyText(preferredApp) ==> FindOption(options, preferredApp.value) == None
  {
    forall i | FirstMatchAt(options, preferredApp, i)
      ensures FindOption(options, preferredApp.value) == Some(i)
    {
      FindOptionAt(options, preferredApp.value, i);
    }
  }

  /**
   * The choice `openNavigation` makes among the offered options: a truthy
   * preference opens the first option whose name matches it ignoring case;
   * no preference, or no match, shows the dialog.
   */
  function ChooseNavigation(options: seq<NavigationOption>, preferredApp: Option<string>, linker: Linker): (o: NavOutcome)
    ensures NoMatch(options, preferredApp) ==> o == NavigationDialog(options)
    ensures forall i :: FirstMatchAt(options, preferredApp, i) ==> o == Opened(OpenNavigationUrl(options[i].url, options[i].name, linker))
  {
    FindOptionFindsFirst(options, preferredApp);
    var found := if TruthyText(preferredApp) then FindOption(options, preferredApp.value) else None;
    match found
    case Some(i) => Opened(OpenNavigationUrl(options[i].url, options[i].name, linker))
    case None => NavigationDialog(options)
  }

  /** `openNavigation`: the preferred app when it is offered on this platform, else the dialog. */
  function OpenNavigation(lat: string, lng: string, preferredApp: Option<string>, platform: Platform, linker: Linker): (o: NavOutcome)
    ensures var options := GetNavigationOptions(lat, lng, platform);
            NoMatch(options, preferredApp) ==> o == NavigationDialog(options)
    ensures var options := GetNavigationOptions(lat, lng, platform);
            forall i :: FirstMatchAt(options, preferredApp, i) ==> o == Opened(OpenNavigationUrl(options[i].url, options[i].name, linker))
  {
    ChooseNavigation(GetNavigationOptions(lat, lng, platform), preferredApp, linker)
  }

  /** The preference is matched ignoring case. */
  lemma PreferenceIgnoresCase(lat: string, lng: string, platform: Platform, linker: Linker)
    ensures OpenNavigation(lat, lng, Some("WAZE"), platform, linker)
            == Opened(OpenNavigationUrl(WazeUrl(lat, lng), WazeName, linker))
  {
    assert Lower("WAZE") == "waze";
    assert Lower(WazeName) == "waze";
  }

  /** The three app names differ already in their first lower-cased letter. */
  lemma NamesDiffer()
    ensures Lower(WazeName)[0] == 'w' && Lower(GoogleName)[0] == 'g' && Lower(AppleName)[0] == 'a'
  {
  }

  /** Neither Waze nor Google Maps matches the Apple Maps preference. */
  lemma OthersAreNotApple()
    ensures Lower(WazeName) != Lower(AppleName) && Lower(GoogleName) != Lower(AppleName)
  {
    NamesDiffer();
  }

  /** With Apple Maps third after two other apps, the lookup finds it there. */
  lemma FindAppleThird(options: seq<NavigationOption>)
    requires |options| == 3 && options[0].name == WazeName && options[1].name == GoogleName
    requires options[2].name == AppleName
    ensures FindOption(options, AppleName) == Some(2)
  {
    OthersAreNotApple();
    var last := options[2..];
    assert last[0].name == AppleName;
    assert FindOption(last, AppleName) == Some(0);
    var rest := options[1..];
    assert rest[0].name == GoogleName && rest[1..] == last;
    assert FindOption(rest, AppleName) == Some(1);
  }

  /** With only the two other apps, the lookup finds nothing. */
  lemma FindAppleAbsent(options: seq<NavigationOption>)
    requires |options| == 2 && options[0].name == WazeName && options[1].name == GoogleName
    ensures FindOption(options, AppleName) == None
  {
    OthersAreNotApple();
  }

  /** On iOS the Apple Maps option is found in third place. */
  lemma FindAppleOnIOS(lat: string, lng: string)
    ensures FindOption(GetNavigationOptions(lat, lng, IOS), AppleName) == Some(2)
  {
    FindAppleThird(GetNavigationOptions(lat, lng, IOS));
  }

  /** Elsewhere no option matches Apple Maps. */
  lemma FindAppleElsewhere(lat: string, lng: string, platform: Platform)
    requires platform != IOS
    ensures FindOption(GetNavigationOptions(lat, lng, platform), AppleName) == None
  {
    FindAppleAbsent(GetNavigationOptions(lat, lng, platform));
  }

  /** On iOS, asking for Apple Maps opens the Apple Maps link. */
  lemma AppleMapsOnIOS(lat: string, lng: string, linker: Linker)
    ensures OpenNavigation(lat, lng, Some(AppleName), IOS, linker)
            == Opened(OpenNavigationUrl(AppleUrl(lat, lng), AppleName, linker))
  {
    FindAppleOnIOS(lat, lng);
  }

  /** Elsewhere Apple Maps is not offered, so asking for it shows the dialog. */
  lemma AppleMapsOnlyOnIOS(lat: string, lng: string, platform: Platform, linker: Linker)
    requires platform != IOS
    ensures OpenNavigation(lat, lng, Some(AppleName), platform, linker)
            == NavigationDialog(GetNavigationOptions(lat, lng, platform))
  {
    FindAppleElsewhere(lat, lng, platform);
  }

  /** No preference, or an empty one, always shows the dialog. */
  lemma NoPreferenceShowsDialog(lat: string, lng: string, pref: Option<string>, platform: Platform, linker: Linker)
    requires !TruthyText(pref)
    ensures OpenNavigation(lat, lng, pref, platform, linker).Dialog?
    ensures |OpenNavigation(lat, lng, pref, platform, linker).buttons| == (if platform == IOS then 4 else 3)
  {
  }
}
