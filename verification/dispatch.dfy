/**
 The nine payload variables of `main` (one per kind of action, all but at most one
 `None`), the dispatcher `perform_action` that runs a button's handler and picks
 its status message, and the caption line drawn under the button.
 */
module Dispatch {
  import opened Wrappers
  import opened Wifi
  import opened Classifier

  /** `wifi_info`, `link_url`, `plain_text`, `contact_info`, `event_info`,
      `email_info`, `sms_info`, `geo_info` and `social_media_url`. */
  datatype Slots = Slots(
    wifi: Option<WifiInfo>,
    link: Option<string>,
    plainText: Option<string>,
    contact: Option<string>,
    event: Option<string>,
    email: Option<string>,
    sms: Option<string>,
    geo: Option<string>,
    social: Option<string>)

  /** Every slot `None`, as `main` sets them before classifying and on expiry. */
  const Cleared := Slots(None, None, None, None, None, None, None, None, None)

  /** How many of the nine slots hold a value. */
  function SetCount(sl: Slots): nat {
    (if sl.wifi.Some? then 1 else 0) + (if sl.link.Some? then 1 else 0)
    + (if sl.plainText.Some? then 1 else 0) + (if sl.contact.Some? then 1 else 0)
    + (if sl.event.Some? then 1 else 0) + (if sl.email.Some? then 1 else 0)
    + (if sl.sms.Some? then 1 else 0) + (if sl.geo.Some? then 1 else 0)
    + (if sl.social.Some? then 1 else 0)
  }

  /** The action the slots describe: the first set slot, in the order the caption
      is chosen (Wi-Fi, contact, event, email, SMS, geo, social, link, text). */
  function ActionOf(sl: Slots): Option<Action> {
    if sl.wifi.Some? then Some(WifiJoin(sl.wifi.value))
    else if sl.contact.Some? then Some(Contact(sl.contact.value))
    else if sl.event.Some? then Some(Event(sl.event.value))
    else if sl.email.Some? then Some(Email(sl.email.value))
    else if sl.sms.Some? then Some(Sms(sl.sms.value))
    else if sl.geo.Some? then Some(Geo(sl.geo.value))
    else if sl.social.Some? then Some(SocialProfile(sl.social.value))
    else if sl.link.Some? then Some(Link(sl.link.value))
    else if sl.plainText.Some? then Some(PlainText(sl.plainText.value))
    else None
  }

  /** The slots after the ladder of `main` stores an action: all cleared, then the
      one slot of the action's kind set. Reading the slots back gives the action. */
  function SlotsOf(a: Option<Action>): (sl: Slots)
    ensures ActionOf(sl) == a
    ensures SetCount(sl) == if a.Some? then 1 else 0
  {
    match a
    case None => Cleared
    case Some(WifiJoin(w)) => Cleared.(wifi := Some(w))
    case Some(Contact(s)) => Cleared.(contact := Some(s))
    case Some(Event(s)) => Cleared.(event := Some(s))
    case Some(Email(s)) => Cleared.(email := Some(s))
    case Some(Sms(s)) => Cleared.(sms := Some(s))
    case Some(Geo(s)) => Cleared.(geo := Some(s))
    case Some(SocialProfile(s)) => Cleared.(social := Some(s))
    case Some(Link(s)) => Cleared.(link := Some(s))
    case Some(PlainText(s)) => Cleared.(plainText := Some(s))
  }

  /** Python truthiness of an optional string: present and non-empty. */
  predicate Truthy(o: Option<string>) {
    o.Some? && o.value != ""
  }

  /** The nine button labels. */
  predicate IsLabel(text: string) {
    text in {"Connect to Wi-Fi", "Go to Link", "Copy Text", "Save Contact", "Save Event",
             "Send Email", "Send SMS", "Open Map", "Open Profile"}
  }

  /** `perform_action`: the branch whose label matches and whose slot is truthy runs
      its handler, whose outcome is `handlerOk`, and yields that branch's success or
      failure message; the link, copy and profile branches always succeed; when no
      branch applies the message is empty. */
  function PerformAction(text: string, sl: Slots, handlerOk: bool): (message: string)
    ensures !IsLabel(text) ==> message == ""
    ensures sl == Cleared ==> message == ""
    ensures var a := ActionOf(sl);
      a.Some? && WellFormed(a.value) && sl == SlotsOf(a) ==>
        message == if text == Label(a.value) then Message(a.value, handlerOk) else ""
  {
    if text == "Connect to Wi-Fi" && sl.wifi.Some? then
      if handlerOk then "Connected to " + sl.wifi.value.ssid + "."
      else "Failed to connect to " + sl.wifi.value.ssid + "."
    else if text == "Go to Link" && Truthy(sl.link) then "Opening link..."
    else if text == "Copy Text" && Truthy(sl.plainText) then "Text copied to clipboard."
    else if text == "Save Contact" && Truthy(sl.contact) then
      if handlerOk then "Contact saved." else "Failed to save contact."
    else if text == "Save Event" && Truthy(sl.event) then
      if handlerOk then "Event saved." else "Failed to save event."
    else if text == "Send Email" && Truthy(sl.email) then
      if handlerOk then "Opening email client." else "Failed to send email."
    else if text == "Send SMS" && Truthy(sl.sms) then
      if handlerOk then "Opening SMS application." else "Failed to send SMS."
    else if text == "Open Map" && Truthy(sl.geo) then
      if handlerOk then "Opening location in map." else "Failed to open location."
    else if text == "Open Profile" && Truthy(sl.social) then "Opening social media profile..."
    else ""
  }

  /** Whether the handler of an action kind can report failure (opening a link or
      profile and copying text cannot). */
  predicate CanFail(a: Action) {
    !(a.Link? || a.SocialProfile? || a.PlainText?)
  }

  /** The status message table, keyed by the kind of action. */
  function Message(a: Action, handlerOk: bool): (m: string)
    ensures m != ""
  {
    match a
    case WifiJoin(w) =>
      if handlerOk then "Connected to " + w.ssid + "." else "Failed to connect to " + w.ssid + "."
    case Link(_) => "Opening link..."
    case PlainText(_) => "Text copied to clipboard."
    case Contact(_) => if handlerOk then "Contact saved." else "Failed to save contact."
    case Event(_) => if handlerOk then "Event saved." else "Failed to save event."
    case Email(_) => if handlerOk then "Opening email client." else "Failed to send email."
    case Sms(_) => if handlerOk then "Opening SMS application." else "Failed to send SMS."
    case Geo(_) => if handlerOk then "Opening location in map." else "Failed to open location."
    case SocialProfile(_) => "Opening social media profile..."
  }

  /** The handlers that cannot fail report the same message either way. */
  lemma MessageIgnoresOutcome(a: Action)
    requires !CanFail(a)
    ensures Message(a, true) == Message(a, false)
  {
  }

  /** Pressing the button of a classified action dispatches through the table
      entry of that action's kind. */
  lemma PerformActionMatchesTable(a: Action, handlerOk: bool)
    requires WellFormed(a)
    ensures PerformAction(Label(a), SlotsOf(Some(a)), handlerOk) == Message(a, handlerOk)
  {
  }

  /** A label that is not the stored action's label selects no branch. */
  lemma PerformActionMismatch(a: Action, text: string, handlerOk: bool)
    requires text != Label(a)
    ensures PerformAction(text, SlotsOf(Some(a)), handlerOk) == ""
  {
  }

  /** For the slots of a classified action, the dispatcher answers (with a non-empty
      message) exactly when it is handed that action's label. */
  lemma PerformActionAnswersIffLabel(a: Action, text: string, handlerOk: bool)
    requires WellFormed(a)
    ensures PerformAction(text, SlotsOf(Some(a)), handlerOk) != "" <==> text == Label(a)
  {
    if text == Label(a) {
      PerformActionMatchesTable(a, handlerOk);
    } else {
      PerformActionMismatch(a, text, handlerOk);
    }
  }

  /** The caption `main` draws for the slots: a fixed phrase per kind, the SSID,
      the link or the text itself, or the no-code notice; unset or empty slots are
      skipped as Python's truthiness test does. */
  function DisplayText(sl: Slots): (caption: string)
    ensures var a := ActionOf(sl);
      sl == SlotsOf(a) && (a.Some? ==> WellFormed(a.value)) ==> caption == Caption(a)
  {
    if sl.wifi.Some? then "SSID: " + sl.wifi.value.ssid
    else if Truthy(sl.contact) then "Contact Information Detected"
    else if Truthy(sl.event) then "Event Information Detected"
    else if Truthy(sl.email) then "Email Address Detected"
    else if Truthy(sl.sms) then "SMS Information Detected"
    else if Truthy(sl.geo) then "Geolocation Detected"
    else if Truthy(sl.social) then "Social Media Profile Detected"
    else if Truthy(sl.link) then "Link: " + sl.link.value
    else if Truthy(sl.plainText) then "Text: " + sl.plainText.value
    else "No QR code detected"
  }

  /** The caption table, keyed by the active action. */
  function Caption(a: Option<Action>): string {
    match a
    case None => "No QR code detected"
    case Some(WifiJoin(w)) => "SSID: " + w.ssid
    case Some(Contact(_)) => "Contact Information Detected"
    case Some(Event(_)) => "Event Information Detected"
    case Some(Email(_)) => "Email Address Detected"
    case Some(Sms(_)) => "SMS Information Detected"
    case Some(Geo(_)) => "Geolocation Detected"
    case Some(SocialProfile(_)) => "Social Media Profile Detected"
    case Some(Link(u)) => "Link: " + u
    case Some(PlainText(t)) => "Text: " + t
  }

  /** The caption drawn from the slots is the table entry of the stored action. */
  lemma DisplayTextMatchesCaption(a: Option<Action>)
    requires a.Some? ==> WellFormed(a.value)
    ensures DisplayText(SlotsOf(a)) == Caption(a)
  {
  }
}
