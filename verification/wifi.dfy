/**
 The Wi-Fi QR payload parser (`parse_wifi_info`): `WIFI:` fields separated by `;`,
 each field introduced by a one-letter tag, `S:` (SSID), `P:` (password),
 `T:` (authentication type) and `H:` (hidden network).
 */
module Wifi {
  import opened Strings

  datatype WifiInfo = WifiInfo(ssid: string, password: string, authType: string, hidden: bool)

  /** The record the parser starts from: every field empty, not hidden. */
  const Defaults := WifiInfo("", "", "", false)

  /** The four fields a tag can set. */
  datatype Field = Ssid | Password | AuthType | Hidden

  function Tag(f: Field): string {
    match f
    case Ssid => "S:"
    case Password => "P:"
    case AuthType => "T:"
    case Hidden => "H:"
  }

  /** A field's content, uniform over the text fields and the hidden flag. */
  datatype FieldValue = Text(text: string) | Flag(flag: bool)

  function Get(w: WifiInfo, f: Field): FieldValue {
    match f
    case Ssid => Text(w.ssid)
    case Password => Text(w.password)
    case AuthType => Text(w.authType)
    case Hidden => Flag(w.hidden)
  }

  /** What a segment's value (the text after its tag) means for field `f`:
      the text itself, or for `H:` whether it reads "true" in any case. */
  function Interpret(f: Field, value: string): FieldValue {
    if f == Hidden then Flag(ToLowerAscii(value) == "true") else Text(value)
  }

  /** One segment of the payload applied to the record: the first matching tag
      wins, an untagged segment changes nothing. */
  function ApplySegment(w: WifiInfo, part: string): WifiInfo {
    if StartsWith(part, "S:") then w.(ssid := part[2..])
    else if StartsWith(part, "P:") then w.(password := part[2..])
    else if StartsWith(part, "T:") then w.(authType := part[2..])
    else if StartsWith(part, "H:") then w.(hidden := ToLowerAscii(part[2..]) == "true")
    else w
  }

  /** The segments applied left to right, so a later duplicate overwrites an earlier one. */
  function ApplySegments(w: WifiInfo, parts: seq<string>): WifiInfo
    decreases |parts|
  {
    if |parts| == 0 then w else ApplySegments(ApplySegment(w, parts[0]), parts[1..])
  }

  /** The payload after the `WIFI:` prefix (its first five characters) with one
      trailing `;` removed. */
  function Body(qr: string): (body: string)
    ensures StartsWith(qr, "WIFI:") && qr[|qr| - 1] == ';' ==> qr == "WIFI:" + body + ";"
    ensures StartsWith(qr, "WIFI:") && qr[|qr| - 1] != ';' ==> qr == "WIFI:" + body
  {
    var rest := Drop(qr, 5);
    if |rest| > 0 && rest[|rest| - 1] == ';' then rest[..|rest| - 1] else rest
  }

  /** The `;`-separated segments of the payload. */
  function Segments(qr: string): seq<string> {
    Split(Body(qr), ';')
  }

  /** `parse_wifi_info`. The source's exception path cannot be reached for a
      string argument, so the parser is total. Every field it yields comes from one
      `;`-separated segment, so the record can be encoded again. */
  function ParseWifi(qr: string): (w: WifiInfo)
    ensures Encodable(w)
  {
    SplitPiecesSeparatorFree(Body(qr), ';');
    ApplySegmentsEncodable(Defaults, Segments(qr));
    ApplySegments(Defaults, Segments(qr))
  }

  /** Applying `;`-free segments keeps the text fields `;`-free. */
  lemma {:induction false} ApplySegmentsEncodable(w: WifiInfo, parts: seq<string>)
    requires Encodable(w)
    requires forall i :: 0 <= i < |parts| ==> ';' !in parts[i]
    ensures Encodable(ApplySegments(w, parts))
    decreases |parts|
  {
    if |parts| > 0 {
      var p := parts[0];
      assert ';' !in p;
      if |p| >= 2 {
        assert forall k :: 0 <= k < |p[2..]| ==> p[2..][k] == p[k + 2];
      }
      ApplySegmentsEncodable(ApplySegment(w, p), parts[1..]);
    }
  }

  /** Segment `i` is the last one carrying `tag`. */
  ghost predicate LastTagged(parts: seq<string>, tag: string, i: int) {
    && 0 <= i < |parts|
    && StartsWith(parts[i], tag)
    && forall j :: i < j < |parts| ==> !StartsWith(parts[j], tag)
  }

  /** No segment carries `tag`. */
  ghost predicate Untagged(parts: seq<string>, tag: string) {
    forall j :: 0 <= j < |parts| ==> !StartsWith(parts[j], tag)
  }

  /** A single segment sets field `f` exactly when it carries `f`'s tag (the
      four tags start with different letters, so at most one applies). */
  lemma ApplySegmentField(w: WifiInfo, part: string, f: Field)
    ensures StartsWith(part, Tag(f)) ==> Get(ApplySegment(w, part), f) == Interpret(f, part[2..])
    ensures !StartsWith(part, Tag(f)) ==> Get(ApplySegment(w, part), f) == Get(w, f)
  {
  }

  /** Each field ends up with the value of the last segment carrying its tag,
      or keeps its starting value when no segment carries it. */
  lemma {:induction false} LastSegmentWins(w: WifiInfo, parts: seq<string>, f: Field)
    ensures Untagged(parts, Tag(f)) ==> Get(ApplySegments(w, parts), f) == Get(w, f)
    ensures forall i :: LastTagged(parts, Tag(f), i) ==>
              Get(ApplySegments(w, parts), f) == Interpret(f, parts[i][2..])
    decreases |parts|
  {
    if |parts| > 0 {
      var w' := ApplySegment(w, parts[0]);
      var rest := parts[1..];
      LastSegmentWins(w', rest, f);
      ApplySegmentField(w, parts[0], f);
      forall i | LastTagged(parts, Tag(f), i)
        ensures Get(ApplySegments(w, parts), f) == Interpret(f, parts[i][2..])
      {
        if i > 0 {
          assert LastTagged(rest, Tag(f), i - 1);
        } else {
          assert Untagged(rest, Tag(f));
        }
      }
      if Untagged(parts, Tag(f)) {
        assert Untagged(rest, Tag(f));
      }
    }
  }

  /** The parser's fields: the value of the last segment with the field's tag,
      else the default (empty text, not hidden). */
  lemma ParseWifiFields(qr: string, f: Field)
    ensures Untagged(Segments(qr), Tag(f)) ==> Get(ParseWifi(qr), f) == Get(Defaults, f)
    ensures forall i :: LastTagged(Segments(qr), Tag(f), i) ==>
              Get(ParseWifi(qr), f) == Interpret(f, Segments(qr)[i][2..])
  {
    LastSegmentWins(Defaults, Segments(qr), f);
  }

  /** No field text holds the `;` separator (the format has no escaping). */
  predicate Encodable(w: WifiInfo) {
    ';' !in w.ssid && ';' !in w.password && ';' !in w.authType
  }

  /** A payload built from separator-free segments splits back into them. */
  lemma SegmentsOfJoin(parts: seq<string>)
    requires |parts| >= 1
    requires forall i :: 0 <= i < |parts| ==> ';' !in parts[i]
    ensures Segments("WIFI:" + Join(parts, ';') + ";") == parts
  {
    var body := Join(parts, ';');
    var qr := "WIFI:" + body + ";";
    assert Drop(qr, 5) == body + ";";
    assert Body(qr) == body;
    SplitJoin(parts, ';');
  }

  /** Applying the segments `T:`, `S:`, `P:`, then any tail without those tags. */
  lemma ApplyTypeSsidPassword(t: string, s: string, p: string, tail: seq<string>)
    ensures ApplySegments(Defaults, ["T:" + t, "S:" + s, "P:" + p] + tail)
         == ApplySegments(WifiInfo(s, p, t, false), tail)
  {
    var parts := ["T:" + t, "S:" + s, "P:" + p] + tail;
    var w1 := ApplySegment(Defaults, parts[0]);
    assert w1 == Defaults.(authType := t);
    var w2 := ApplySegment(w1, parts[1]);
    assert w2 == w1.(ssid := s);
    var w3 := ApplySegment(w2, parts[2]);
    assert w3 == WifiInfo(s, p, t, false);
    assert parts[1..][1..] == parts[2..];
    assert parts[2..][1..] == parts[3..] == tail;
    assert ApplySegments(Defaults, parts) == ApplySegments(w1, parts[1..]);
    assert ApplySegments(w1, parts[1..]) == ApplySegments(w2, parts[2..]);
    assert ApplySegments(w2, parts[2..]) == ApplySegments(w3, parts[3..]);
  }

  /** The segments of the payload format, in order, including the empty one that
      the closing `;;` leaves. */
  function EncodedSegments(w: WifiInfo): seq<string> {
    ["T:" + w.authType, "S:" + w.ssid, "P:" + w.password]
      + ["H:" + (if w.hidden then "true" else "false"), ""]
  }

  /** The payload format `WIFI:T:<type>;S:<ssid>;P:<password>;H:<true|false>;;`. */
  function Encode(w: WifiInfo): string {
    "WIFI:" + Join(EncodedSegments(w), ';') + ";"
  }

  lemma ApplyHiddenTail(w: WifiInfo)
    ensures ApplySegments(w.(hidden := false), EncodedSegments(w)[3..]) == w
  {
    var h := if w.hidden then "true" else "false";
    var tail := EncodedSegments(w)[3..];
    assert tail == ["H:" + h, ""];
    assert StartsWith(tail[0], "H:");
    LowerIsTrue(h);
    var w4 := ApplySegment(w.(hidden := false), tail[0]);
    assert w4 == w;
    assert ApplySegment(w4, tail[1]) == w4;
    assert tail[1..] == [""];
    assert tail[1..][1..] == [];
    assert ApplySegments(w.(hidden := false), tail) == ApplySegments(w4, tail[1..]);
    assert ApplySegments(w4, tail[1..]) == ApplySegments(w4, tail[1..][1..]);
  }

  /** Parsing inverts encoding for every record whose fields hold no `;`. */
  lemma ParseEncode(w: WifiInfo)
    requires Encodable(w)
    ensures ParseWifi(Encode(w)) == w
  {
    var parts := EncodedSegments(w);
    forall i | 0 <= i < |parts|
      ensures ';' !in parts[i]
    {
    }
    SegmentsOfJoin(parts);
    ApplyTypeSsidPassword(w.authType, w.ssid, w.password, parts[3..]);
    assert parts == ["T:" + w.authType, "S:" + w.ssid, "P:" + w.password] + parts[3..];
    ApplyHiddenTail(w);
  }

  /** Re-encoding a parsed record and parsing it again loses nothing. */
  lemma ParseIdempotent(qr: string)
    ensures ParseWifi(Encode(ParseWifi(qr))) == ParseWifi(qr)
  {
    ParseEncode(ParseWifi(qr));
  }

  /** The worked example of the payload format: a record with no `H:` field. */
  lemma ParseExample()
    ensures ParseWifi("WIFI:T:WPA;S:Home;P:secret;;") == WifiInfo("Home", "secret", "WPA", false)
  {
    var parts := ["T:" + "WPA", "S:" + "Home", "P:" + "secret"] + [""];
    JoinCons(parts[2], parts[3..], ';');
    JoinCons(parts[1], parts[2..], ';');
    JoinCons(parts[0], parts[1..], ';');
    assert [parts[0]] + parts[1..] == parts;
    assert "WIFI:T:WPA;S:Home;P:secret;;" == "WIFI:" + Join(parts, ';') + ";";
    forall i | 0 <= i < |parts|
      ensures ';' !in parts[i]
    {
    }
    SegmentsOfJoin(parts);
    ApplyTypeSsidPassword("WPA", "Home", "secret", [""]);
    assert ApplySegment(WifiInfo("Home", "secret", "WPA", false), "") == WifiInfo("Home", "secret", "WPA", false);
  }
}
