# QR Code Interactive Scanner: a Dafny model of its interaction core

The scanner (`qr_code_scanner.py`) reads QR codes from a webcam. It turns each decoded
payload into one of nine kinds of action: Wi-Fi join, contact, event, email, SMS,
geolocation, social profile, link or plain text. It then draws one action button, and
the user "presses" it by holding an index fingertip over it.

This project models the logic between the external libraries and the operating system:

- **Classifier** (`classifier.dfy`): the first-match-wins `if/elif` ladder over prefixes
  and substrings (`Classify`), the social-domain test and the fixed button labels and
  geometry.
- **Wi-Fi parser** (`wifi.dfy`): `parse_wifi_info`. It drops `WIFI:`, removes one
  trailing `;`, splits on `;` and applies the tags `S:`/`P:`/`T:`/`H:`.
- **Dispatcher** (`dispatch.dfy`): the nine payload variables of `main` (`Slots`),
  `perform_action` and the caption drawn under the button.
- **Handler argument splitting** (`handlers.dfy`): the pure string work in `send_sms`
  and `open_in_map`, including the map search address.
- **Frame step** (`frame.dfy`): one loop iteration (`Step`), run in the source's order.
  1. Decode and clear, or retain for 5 time units.
  2. Expire the status message after 3 time units.
  3. Run the strict hit test.
  4. Apply the 2-unit dispatch cooldown.
- `Run` threads `Step` through a sequence of frames.
- **Python `str` operations** (`strings.dfy`): `startswith`, `in`, `replace(p, "")`,
  `split`, `split(sep, 1)` and `lower()`, with lemmas stating their defining properties.

The camera, the QR decoder and the hand tracker become per-frame inputs: an optional
payload and an optional integer fingertip point. The clock becomes one integer reading
per frame. Each handler's effect becomes a boolean outcome, `handlerOk`.

The loop state keeps the source's representation: nine optional slots plus a button
list. `Coherent` states the invariant the source leaves implicit. At most one slot is
set, and the button list is exactly that slot's button. `ActionOf` maps the slots to the
single `Option<Action>` they describe.

Facts about the code that the model keeps:
- The cooldown test is strict: a press fires only when `now - last > 2`
  (qr_code_scanner.py:215, with the constant at line 59).
- Every decode clears the previous payload and restarts the retention window
  (lines 87-101), even when the payload is empty. The ladder then runs only for a
  non-empty payload (line 104).
- `parse_wifi_info` has no failing path for a string argument. Its `except` branch
  (lines 324-326) cannot be reached from `main`, so every `WIFI:` payload yields a
  Wi-Fi action.
- SMS and geo payloads are stored raw (lines 117-121). They are split into fields
  only when the button is pressed (lines 512-515, 529-533).

## Model

| member | source | states |
|---|---|---|
| Classifier.Classify | qr_code_scanner.py:104-131 | The empty payload yields no action. Otherwise the action's rank is a test the payload passes, no earlier test passes, and the action is that rank's constructor applied to the payload (parsed, for Wi-Fi). |
| Classifier.ClassifyFirstMatch | qr_code_scanner.py:105-131 | For a non-empty payload, the action has rank k exactly when test k is the first of the nine tests the payload passes. |
| Classifier.AnyListedSome | qr_code_scanner.py:545-548 | The domain loop returns true exactly when some entry of the list occurs in the text, and false when none does. |
| Classifier.IsSocialMediaLink | qr_code_scanner.py:540-548 | The loop over the domain list answers true exactly when some listed domain occurs in the payload, that is, when it contains `instagram.com`, `twitter.com`, `facebook.com`, `linkedin.com` or `tiktok.com` anywhere. |
| Classifier.SocialBeatsLink | qr_code_scanner.py:123-128 | An `http://` or `https://` payload containing any of the five social domains is a social profile, not a link, because the social test comes first. |
| Classifier.WifiBeatsAll | qr_code_scanner.py:105-106 | A payload starting `WIFI:` is a Wi-Fi action whatever else it contains. |
| Classifier.ButtonsFor | qr_code_scanner.py:107-131 | No action gives no button. An action gives exactly one button, at rectangle (50,50,350,150), carrying the action's label. |
| Classifier.LabelNamesKind | qr_code_scanner.py:107-131 | Two actions have the same button label exactly when they are the same kind. |
| Wifi.ParseWifi | qr_code_scanner.py:303-326 | The parser never fails on a string. No text field of its result holds `;`, so the result can always be encoded again. |
| Wifi.ParseIdempotent | qr_code_scanner.py:303-323 | Encoding a parsed record and parsing it again gives the same record. |
| Wifi.Body | qr_code_scanner.py:310-312 | For a `WIFI:` payload, the body is what follows the 5-character prefix, without one trailing `;` when there is one. |
| Wifi.LastSegmentWins | qr_code_scanner.py:313-322 | After applying the segments, each field holds the value of the last segment with its tag. `H:` becomes true iff the value lowercases to `true`. A field no segment tags keeps its start value. |
| Wifi.ParseWifiFields | qr_code_scanner.py:307-323 | Each parsed field is the value of its last tagged segment, or the default (`""`, `""`, `""`, false) when no segment has its tag. |
| Wifi.ParseEncode | qr_code_scanner.py:309-323 | Parsing `WIFI:T:..;S:..;P:..;H:..;;` gives back every record whose text fields hold no `;`. |
| Wifi.ParseExample | qr_code_scanner.py:309 | `WIFI:T:WPA;S:Home;P:secret;;` parses to SSID `Home`, password `secret`, type `WPA`, not hidden. |
| Strings.LowerIsTrue | qr_code_scanner.py:322 | `v.lower() == "true"` holds for exactly the four-letter spellings of "true" in any case. |
| Strings.Split | qr_code_scanner.py:313 | `split` always returns at least one piece. |
| Strings.SplitPiecesSeparatorFree | qr_code_scanner.py:313 | No piece returned by `split` contains the separator. |
| Strings.JoinSplit | qr_code_scanner.py:313 | Joining the pieces of `split` with the separator gives back the text. |
| Strings.SplitJoin | qr_code_scanner.py:313 | Splitting a join of separator-free pieces gives back the pieces. |
| Strings.SplitOnce | qr_code_scanner.py:513 | `split(':', 1)` yields the separator-free text before the first `:` and, when there is one, the rest, and the two reassemble the input. Without a `:`, the whole text comes back. |
| Strings.RemoveAllIdentity | qr_code_scanner.py:512 | `replace(p, "")` leaves a text unchanged exactly when `p` does not occur in it. |
| Strings.RemoveAllLeading | qr_code_scanner.py:529 | A leading occurrence of the pattern is always deleted. |
| Handlers.SmsFields | qr_code_scanner.py:512-515 | The phone number holds no `:`, and phone and message together are no longer than the payload. |
| Handlers.SmsRoundTrip | qr_code_scanner.py:511-515 | `smsto:<phone>:<message>` yields exactly that phone and message when the phone has no `:` and `smsto:` does not recur after the scheme. |
| Handlers.SmsWithoutMessage | qr_code_scanner.py:513-515 | `smsto:<phone>` without a `:` yields that phone and an empty message. |
| Handlers.SmsSchemeInMessageIsLost | qr_code_scanner.py:512 | As written, `smsto:1:smsto:` yields phone `1` with an empty message. |
| Handlers.SmsFieldsPrefix | qr_code_scanner.py:512-515 | The corrected split, which removes the scheme only as a prefix, also yields a `:`-free phone. |
| Handlers.SmsPrefixRoundTrip | qr_code_scanner.py:512-515 | With only the prefix removed, `smsto:<phone>:<message>` yields exactly its phone and message for any message, when the phone has no `:`. |
| Handlers.SmsPrefixKeepsMessage | qr_code_scanner.py:512-515 | The corrected split reads `smsto:1:smsto:` as phone `1`, message `smsto:`. |
| Handlers.GeoFields | qr_code_scanner.py:529-532 | Latitude and longitude hold no `,`. |
| Handlers.GeoPieces | qr_code_scanner.py:529-532 | For `geo:` followed by comma-joined comma-free pieces, when `geo:` does not recur after the scheme, latitude is the first piece. Longitude is the second piece, or empty when there is none. Extra pieces are ignored. |
| Handlers.MapUrlQuery | qr_code_scanner.py:529-533 | For comma-free `<lat>` and `<lon>`, when `geo:` does not recur after the scheme, `geo:<lat>,<lon>` opens the fixed map-search address followed by `<lat>,<lon>`. |
| Handlers.GeoMissingLongitude | qr_code_scanner.py:529-533 | Every comma-free `geo:` payload gives an empty longitude, and its query ends in a bare `,` rather than failing. The latitude is the rest with every `geo:` deleted, so it is the rest itself when `geo:` does not recur. |
| Dispatch.SlotsOf | qr_code_scanner.py:92-131 | Storing an action sets exactly one of the nine slots (none for no action), and reading the slots back gives the action. |
| Dispatch.PerformAction | qr_code_scanner.py:254-301 | A label outside the nine button labels, or all-empty slots, yields the empty message. For slots holding one classified action, the message is that kind's table message when the label is the action's label, and `''` otherwise. |
| Dispatch.Message | qr_code_scanner.py:256-300 | Every entry of the per-kind message table is non-empty. |
| Dispatch.MessageIgnoresOutcome | qr_code_scanner.py:262-267 | Link, copy-text and profile report the same message whatever the handler outcome. |
| Dispatch.PerformActionMatchesTable | qr_code_scanner.py:254-301 | Dispatching an action's own label over its slots yields that kind's success or failure message. |
| Dispatch.PerformActionMismatch | qr_code_scanner.py:254-301 | Any other label over those slots falls through to `''`. |
| Dispatch.PerformActionAnswersIffLabel | qr_code_scanner.py:254-301 | Over a classified action's slots, the message is non-empty exactly when the label is that action's label. |
| Dispatch.DisplayText | qr_code_scanner.py:161-189 | For slots holding at most one classified action, the caption is that action's table entry (a fixed phrase per kind, the SSID, the link or the text), or `No QR code detected` when there is none. |
| Dispatch.DisplayTextMatchesCaption | qr_code_scanner.py:161-189 | The caption chosen from the slots by truthiness is the per-kind caption of the stored action, or "No QR code detected". |
| Frame.FirstHit | qr_code_scanner.py:210-227 | The index of the first button whose rectangle strictly contains the point, with no earlier button containing it. None exactly when no button contains it. |
| Frame.Step | qr_code_scanner.py:77-233 | A decode replaces the slots and buttons with the payload's classification and sets `qr_timeout` to now. Without a decode, both stay while now − `qr_timeout` < 5 and are cleared at 5 or more. A dispatch happens exactly when the button is pressed and now − last press > 2. It records now, the label and the dispatcher's message. Without a dispatch, press time, label and message time are unchanged and the message survives only if non-empty and younger than 3. |
| Frame.StepHitTest | qr_code_scanner.py:198-233 | The button is pressed exactly when a fingertip lies strictly inside a button on screen, and a dispatch names such a button. |
| Frame.NoPointerNoPress | qr_code_scanner.py:232-233 | With no hand, nothing is pressed and nothing is dispatched. |
| Frame.StepPressTime | qr_code_scanner.py:213-216 | A dispatch sets the last press time to now and needs now − last > 2. Otherwise the last press time is unchanged. |
| Frame.CoherentExclusive | qr_code_scanner.py:92-131 | In a coherent state at most one slot is set, there is one button per set slot, and every button is at (50,50,350,150). |
| Frame.InitialCoherent | qr_code_scanner.py:34-60 | The starting values are coherent. |
| Frame.StepCoherent | qr_code_scanner.py:87-150 | Every frame preserves coherence. |
| Frame.DecodeSetsExactlyOne | qr_code_scanner.py:92-131 | A decoded non-empty payload leaves exactly one slot and one button at (50,50,350,150) with the payload's label. An empty payload leaves none. |
| Frame.StepDispatchesActive | qr_code_scanner.py:210-225 | In a coherent state, a dispatch carries the active action's label and shows that action's table message, never `''`. |
| Frame.RunCooldown | qr_code_scanner.py:213-225 | Over any run, each dispatch is more than 2 after the previous one (the first after the starting last-press time), and the final last-press time is the last dispatch's. |
| Frame.SpacedPairwise | qr_code_scanner.py:215 | The spacing holds pairwise: consecutive dispatch times differ by more than 2. |
| Frame.RunRetention | qr_code_scanner.py:133-137 | Frames with no decode, all within 5 of `qr_timeout`, keep slots, buttons and `qr_timeout` unchanged. |
| Frame.RunCoherent | qr_code_scanner.py:62-150 | Coherence holds after any run from a coherent state. |

## Left out

- Camera capture, QR decoding, hand tracking, and the frame flip and colour conversion
  (lines 15-31, 63-79): these are foreign libraries. Their outputs are the per-frame
  `Input`. The payload's UTF-8 decoding (line 79) is outside the model.
- Float-to-pixel fingertip conversion (line 203) is floating point. The point arrives
  as integers.
- Only the first hand is considered. The tracker is configured with
  `max_num_hands=1` (line 28), so the `for hand_landmarks` loop runs at most once.
- Drawing: the polygon, `draw_button`, `putText`, `imshow` and the quit key
  (lines 80-85, 152-158, 235-252) are rendering. Only the caption choice (161-189)
  is modelled, as `DisplayText`.
- Wall-clock time: `time.time()` returns float seconds and is read up to four times
  per frame (line 88 or 136, then 192, 214 and 223). The model takes one integer reading `now` per frame.
- Handler effects: `connect_to_wifi`, `get_mac_wifi_interface`, `save_contact`,
  `save_event`, `send_email`, `webbrowser.open`, `pyperclip.copy` and the `print` in
  `send_sms` are operating-system side effects. Their boolean outcome is the input
  `handlerOk`, and only the argument splitting of `send_sms` and `open_in_map` is
  modelled.
- Dispatch.PerformAction: a handler exception that its own function does not catch is
  not modelled. `webbrowser.open` (lines 263, 299) and `pyperclip.copy` (line 266) are
  called outside any `try`. `connect_to_wifi` catches only `CalledProcessError`
  (line 403), so an `OSError` from the profile write (365-366), or a missing `nmcli` or
  `networksetup` (378, 390), propagates. `main` has no `try` either. In the source
  such an exception ends the program with no status message. The model always returns
  a message, and for Go to Link, Copy Text and Open Profile it is the success message.
- Strings.ToLowerAscii: lowercases ASCII letters only. Python's `lower()` is Unicode
  aware, but only the comparison with `"true"` depends on it.
- Strings.RemoveAll: models `replace` only with an empty replacement and a non-empty
  pattern, the only way the source calls it.

## Findings

| source | as written | input that shows it | evidently intended | confidence | as-written member | corrected member |
|---|---|---|---|---|---|---|
| qr_code_scanner.py:512 | `replace("smsto:", "")` deletes the scheme everywhere in the payload, including inside the message | `smsto:1:smsto:` gives phone `1` and message `''` | remove only the leading `smsto:`, giving phone `1` and message `smsto:` | medium, not executed | Handlers.SmsSchemeInMessageIsLost | Handlers.SmsPrefixRoundTrip |

The SMS arguments only reach a `print` in the source. The frame step uses just the
handler's boolean outcome, so neither the as-written nor the corrected split changes
the state machine.
