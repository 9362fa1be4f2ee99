/**
 The payload classifier: the `if/elif` ladder in `main` that turns a decoded QR
 payload into one of nine kinds of action, each with one button label.
 */
module Classifier {
  import opened Wrappers
  import opened Strings
  import opened Wifi

  /** The classified payload. Every kind but Wi-Fi keeps the raw payload text,
      as the source's slot variables do; SMS and geo payloads are only split into
      their parts when the button is pressed. */
  datatype Action =
    | WifiJoin(wifi: WifiInfo)
    | Contact(payload: string)
    | Event(payload: string)
    | Email(payload: string)
    | Sms(payload: string)
    | Geo(payload: string)
    | SocialProfile(payload: string)
    | Link(payload: string)
    | PlainText(payload: string)

  /** The domains whose presence anywhere in the payload marks a social-media profile. */
  const SocialDomains: seq<string> :=
    ["instagram.com", "twitter.com", "facebook.com", "linkedin.com", "tiktok.com"]

  /** The loop of `is_social_media_link`: true as soon as a listed domain occurs,
      false once the list is exhausted. */
  function AnyListed(url: string, domains: seq<string>): bool
    decreases |domains|
  {
    if |domains| == 0 then false
    else if Contains(url, domains[0]) then true
    else AnyListed(url, domains[1..])
  }

  /** The loop answers true exactly when some entry of the list occurs in the text. */
  lemma {:induction false} AnyListedSome(url: string, domains: seq<string>)
    ensures AnyListed(url, domains) <==>
      exists i :: 0 <= i < |domains| && Contains(url, domains[i])
    decreases |domains|
  {
    if |domains| > 0 {
      var rest := domains[1..];
      AnyListedSome(url, rest);
      if exists i :: 0 <= i < |rest| && Contains(url, rest[i]) {
        var i :| 0 <= i < |rest| && Contains(url, rest[i]);
        assert Contains(url, domains[i + 1]);
      }
      if exists i :: 0 <= i < |domains| && Contains(url, domains[i]) {
        var i :| 0 <= i < |domains| && Contains(url, domains[i]);
        if i > 0 {
          assert Contains(url, rest[i - 1]);
        }
      }
    }
  }

  /** `is_social_media_link`: some social domain occurs as a substring. */
  function IsSocialMediaLink(url: string): (b: bool)
    ensures b <==> exists i :: 0 <= i < |SocialDomains| && Contains(url, SocialDomains[i])
    ensures b <==> (Contains(url, "instagram.com") || Contains(url, "twitter.com")
                    || Contains(url, "facebook.com") || Contains(url, "linkedin.com")
                    || Contains(url, "tiktok.com"))
  {
    AnyListedSome(url, SocialDomains);
    SomeDomainListed(url);
    AnyListed(url, SocialDomains)
  }

  /** Some entry of the domain list occurs exactly when one of the five listed
      domains occurs. */
  lemma SomeDomainListed(url: string)
    ensures (exists i :: 0 <= i < |SocialDomains| && Contains(url, SocialDomains[i]))
        <==> (Contains(url, "instagram.com") || Contains(url, "twitter.com")
              || Contains(url, "facebook.com") || Contains(url, "linkedin.com")
              || Contains(url, "tiktok.com"))
  {
    if exists i :: 0 <= i < |SocialDomains| && Contains(url, SocialDomains[i]) {
      var i :| 0 <= i < |SocialDomains| && Contains(url, SocialDomains[i]);
      assert i == 0 || i == 1 || i == 2 || i == 3 || i == 4;
    }
    if Contains(url, "instagram.com") {
      assert Contains(url, SocialDomains[0]);
    } else if Contains(url, "twitter.com") {
      assert Contains(url, SocialDomains[1]);
    } else if Contains(url, "facebook.com") {
      assert Contains(url, SocialDomains[2]);
    } else if Contains(url, "linkedin.com") {
      assert Contains(url, SocialDomains[3]);
    } else if Contains(url, "tiktok.com") {
      assert Contains(url, SocialDomains[4]);
    }
  }

  /** The nine tests of the ladder, numbered in the order they are tried. */
  predicate Rule(rank: int, s: string) {
    match rank
    case 1 => StartsWith(s, "WIFI:")
    case 2 => StartsWith(s, "BEGIN:VCARD")
    case 3 => StartsWith(s, "BEGIN:VEVENT")
    case 4 => StartsWith(s, "mailto:")
    case 5 => StartsWith(s, "smsto:")
    case 6 => StartsWith(s, "geo:")
    case 7 => IsSocialMediaLink(s)
    case 8 => StartsWith(s, "http://") || StartsWith(s, "https://")
    case 9 => true
    case _ => false
  }

  /** The position of an action's test in the ladder. */
  function Rank(a: Action): (k: int)
    ensures 1 <= k <= 9
  {
    match a
    case WifiJoin(_) => 1
    case Contact(_) => 2
    case Event(_) => 3
    case Email(_) => 4
    case Sms(_) => 5
    case Geo(_) => 6
    case SocialProfile(_) => 7
    case Link(_) => 8
    case PlainText(_) => 9
  }

  /** Every kind but Wi-Fi carries the (non-empty) payload it was built from. */
  predicate WellFormed(a: Action) {
    !a.WifiJoin? ==> a.payload != ""
  }

  /** The action the ladder builds from a payload that passed test `rank`. */
  function Build(rank: int, s: string): Action
    requires 1 <= rank <= 9
  {
    match rank
    case 1 => WifiJoin(ParseWifi(s))
    case 2 => Contact(s)
    case 3 => Event(s)
    case 4 => Email(s)
    case 5 => Sms(s)
    case 6 => Geo(s)
    case 7 => SocialProfile(s)
    case 8 => Link(s)
    case _ => PlainText(s)
  }

  /** The ladder of `main`: the empty payload yields no action (Python's `if qr_data:`),
      any other payload the action of the first test it passes. */
  function Classify(s: string): (r: Option<Action>)
    ensures r.None? <==> s == ""
    ensures r.Some? ==> Rule(Rank(r.value), s)
    ensures r.Some? ==> forall k :: 1 <= k < Rank(r.value) ==> !Rule(k, s)
    ensures r.Some? ==> r.value == Build(Rank(r.value), s) && WellFormed(r.value)
  {
    if s == "" then None
    else if StartsWith(s, "WIFI:") then Some(WifiJoin(ParseWifi(s)))
    else if StartsWith(s, "BEGIN:VCARD") then Some(Contact(s))
    else if StartsWith(s, "BEGIN:VEVENT") then Some(Event(s))
    else if StartsWith(s, "mailto:") then Some(Email(s))
    else if StartsWith(s, "smsto:") then Some(Sms(s))
    else if StartsWith(s, "geo:") then Some(Geo(s))
    else if IsSocialMediaLink(s) then Some(SocialProfile(s))
    else if StartsWith(s, "http://") || StartsWith(s, "https://") then Some(Link(s))
    else Some(PlainText(s))
  }

  /** Priority, stated from the other side: for a non-empty payload, the action has
      rank `k` exactly when test `k` is the first test the payload passes. */
  lemma ClassifyFirstMatch(s: string, k: int)
    requires s != ""
    ensures Rank(Classify(s).value) == k <==>
      1 <= k <= 9 && Rule(k, s) && forall j :: 1 <= j < k ==> !Rule(j, s)
  {
  }

  /** Any social domain anywhere outranks the `http(s)://` test. */
  lemma SocialBeatsLink(s: string, i: int)
    requires 0 <= i < |SocialDomains| && Contains(s, SocialDomains[i])
    requires StartsWith(s, "http://") || StartsWith(s, "https://")
    ensures Classify(s) == Some(SocialProfile(s))
  {
    // The payload starts with `h`, so none of the six earlier prefixes matches.
    if StartsWith(s, "http://") {
      assert s[..7][0] == 'h';
    } else {
      assert s[..8][0] == 'h';
    }
  }

  /** The `WIFI:` test comes first, whatever else the payload holds. */
  lemma WifiBeatsAll(s: string)
    requires StartsWith(s, "WIFI:")
    ensures Classify(s) == Some(WifiJoin(ParseWifi(s)))
  {
  }

  /** The fixed rectangle `(x1, y1, x2, y2)` every button occupies. */
  datatype Rect = Rect(x1: int, y1: int, x2: int, y2: int)

  const ButtonRect := Rect(50, 50, 350, 150)

  datatype Button = Button(text: string, rect: Rect)

  /** The label of the button each kind of action shows. */
  function Label(a: Action): string {
    match a
    case WifiJoin(_) => "Connect to Wi-Fi"
    case Contact(_) => "Save Contact"
    case Event(_) => "Save Event"
    case Email(_) => "Send Email"
    case Sms(_) => "Send SMS"
    case Geo(_) => "Open Map"
    case SocialProfile(_) => "Open Profile"
    case Link(_) => "Go to Link"
    case PlainText(_) => "Copy Text"
  }

  /** The button list `main` builds for the active action: one fixed-geometry
      button, or none. */
  function ButtonsFor(a: Option<Action>): (bs: seq<Button>)
    ensures a.None? <==> bs == []
    ensures a.Some? ==> |bs| == 1 && bs[0].rect == Rect(50, 50, 350, 150)
    ensures a.Some? ==> bs[0].text == Label(a.value)
  {
    match a
    case None => []
    case Some(act) => [Button(Label(act), ButtonRect)]
  }

  /** Different kinds of action carry different labels, so the label names the kind. */
  lemma LabelNamesKind(a: Action, b: Action)
    ensures Label(a) == Label(b) <==> Rank(a) == Rank(b)
  {
  }
}
